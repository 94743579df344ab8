// i_oplmusic.c: which of the voices of the chip are free and which play a note, as a state machine
// on values.
module OplVoices {
  import opened OplPitch

  const OPL_NUM_VOICES: nat := 9

  // The versions of the driver that are emulated, oldest first.
  datatype DriverVersion = Doom1 | Doom2 | Doom19

  const NO_CHANNEL: int := -1

  datatype Part = Part(priority: int, noteOffset: int)

  // genmidi_instr_t: whether it takes two voices, and the pitch of its note if that is fixed, or -1.
  datatype Instrument = Instrument(id: int, double: bool, fixedNote: int, fineTuning: nat, parts: (Part, Part))

  datatype Loaded = Nothing | Loaded(instrument: Instrument, second: bool)

  datatype Frequency = Off | On(pitch: Pitch)

  // opl_voice_t
  class Voice {
    var channel: int
    var key: int
    var note: int
    var loaded: Loaded      // current_instr and current_instr_voice
    var priority: int
    var freq: Frequency

    constructor ()
      ensures channel == NO_CHANNEL && loaded == Nothing
    {
      channel, key, note, loaded, priority, freq := NO_CHANNEL, 0, 0, Nothing, 0, Off;
    }
  }

  // An allocated voice, and what it plays.
  datatype Entry = Entry(voice: Voice, channel: int, key: int, note: int, instrument: Instrument, second: bool)

  function PartOf(e: Entry): Part {
    if e.second then e.instrument.parts.1 else e.instrument.parts.0
  }

  function Priority(e: Entry): int {
    PartOf(e).priority
  }

  // The two lists of the driver.
  datatype Lists = Lists(free: seq<Voice>, alloced: seq<Entry>)

  const NONE: Lists := Lists([], [])

  function VoicesOf(s: seq<Entry>): (r: seq<Voice>)
    ensures |r| == |s| && forall i | 0 <= i < |s| :: r[i] == s[i].voice
  {
    seq(|s|, i requires 0 <= i < |s| => s[i].voice)
  }

  function Pool(l: Lists): multiset<Voice> {
    multiset(l.free) + multiset(VoicesOf(l.alloced))
  }

  function Without<T>(s: seq<T>, k: nat): (r: seq<T>)
    requires k < |s|
    ensures |r| == |s| - 1
  {
    s[..k] + s[k + 1..]
  }

  lemma WithoutCounts<T>(s: seq<T>, k: nat)
    requires k < |s|
    ensures multiset(s) == multiset(Without(s, k)) + multiset{s[k]}
  {
    assert s == s[..k] + [s[k]] + s[k + 1..];
  }

  // ---------- What every event keeps ----------

  // Every second part stands right before the first part of its note.
  predicate Paired(s: seq<Entry>) {
    forall i | 0 <= i < |s| && s[i].second :: i + 1 < |s| && Pair(s[i], s[i + 1])
  }

  predicate Pair(second: Entry, first: Entry) {
    second.second && !first.second && second.channel == first.channel && second.key == first.key
  }

  // Every voice is in one of the lists once.  Only the second of the drivers can lose them, and
  // then all together.
  ghost predicate Complete(l: Lists, voices: multiset<Voice>, version: DriverVersion) {
    Pool(l) == voices || (version == Doom2 && l == NONE)
  }

  // The oldest driver also keeps its notes together.
  ghost predicate Ok(l: Lists, voices: multiset<Voice>, version: DriverVersion) {
    Complete(l, voices, version) && (version == Doom1 ==> Paired(l.alloced))
  }

  lemma PoolSize(l: Lists, voices: multiset<Voice>)
    requires Pool(l) == voices
    ensures |l.free| + |l.alloced| == |voices|
  {
    assert |multiset(l.free)| == |l.free| && |multiset(VoicesOf(l.alloced))| == |l.alloced|;
  }

  // ---------- ReleaseVoice ----------

  function MovedToFree(l: Lists, k: nat): Lists
    requires k < |l.alloced|
  {
    Lists(l.free + [l.alloced[k].voice], Without(l.alloced, k))
  }

  // ReleaseVoice.  A driver before 1.9 also releases the voice that follows a second part, and
  // loses every voice when none follows.
  function Released(l: Lists, index: nat, version: DriverVersion): Lists
    decreases |l.alloced|
  {
    if index >= |l.alloced| then NONE else
      var r := MovedToFree(l, index);
      if l.alloced[index].second && version != Doom19 then Released(r, index, version) else r
  }

  lemma MovedPool(l: Lists, k: nat)
    requires k < |l.alloced|
    ensures Pool(MovedToFree(l, k)) == Pool(l)
  {
    WithoutCounts(VoicesOf(l.alloced), k);
    assert VoicesOf(Without(l.alloced, k)) == Without(VoicesOf(l.alloced), k);
  }

  // What a driver releases; the oldest one only whole notes.
  predicate CanRelease(l: Lists, k: nat, version: DriverVersion) {
    && (version != Doom2 ==> k < |l.alloced|)
    && (version == Doom1 && 0 < k <= |l.alloced| ==> !l.alloced[k - 1].second)
  }

  lemma MovedOk(l: Lists, k: nat, voices: multiset<Voice>, version: DriverVersion)
    requires Ok(l, voices, version) && CanRelease(l, k, version) && k < |l.alloced|
    ensures Ok(MovedToFree(l, k), voices, version)
    ensures version != Doom19 && l.alloced[k].second ==> CanRelease(MovedToFree(l, k), k, version)
  {
    hide Pool;
    MovedPool(l, k);
    if version == Doom1 {
      var s, r := l.alloced, Without(l.alloced, k);
      forall i | 0 <= i < |r| && r[i].second
        ensures i + 1 < |r| && Pair(r[i], r[i + 1])
      {
        var j := if i < k then i else i + 1;
        assert r[i] == s[j] && Pair(s[j], s[j + 1]);
      }
      if s[k].second { assert Pair(s[k], s[k + 1]); }
    }
  }

  lemma {:induction false} ReleasedOk(l: Lists, k: nat, voices: multiset<Voice>, version: DriverVersion)
    requires Ok(l, voices, version) && CanRelease(l, k, version)
    ensures Ok(Released(l, k, version), voices, version)
    decreases |l.alloced|
  {
    hide Ok, CanRelease;
    if k < |l.alloced| {
      MovedOk(l, k, voices, version);
      if l.alloced[k].second && version != Doom19 {
        ReleasedOk(MovedToFree(l, k), k, voices, version);
      }
    } else {
      CrashOk(l, k, voices, version);
    }
  }

  lemma CrashOk(l: Lists, k: nat, voices: multiset<Voice>, version: DriverVersion)
    requires CanRelease(l, k, version) && k >= |l.alloced|
    ensures Ok(NONE, voices, version)
  {}

  lemma {:induction false} ReleasedShrinks(l: Lists, k: nat, version: DriverVersion)
    ensures |Released(l, k, version).alloced| <= |l.alloced|
    ensures |l.alloced| > 0 ==> |Released(l, k, version).alloced| < |l.alloced|
    ensures Released(l, k, version) == NONE
      || (k <= |Released(l, k, version).alloced| && k <= |l.alloced|
          && Released(l, k, version).alloced[..k] == l.alloced[..k])
    decreases |l.alloced|
  {
    if k < |l.alloced| {
      var r := MovedToFree(l, k);
      assert r.alloced[..k] == l.alloced[..k];
      if l.alloced[k].second && version != Doom19 {
        ReleasedShrinks(r, k, version);
      }
    }
  }

  // The older drivers lose all voices exactly when the voices from `k` on are all second parts.
  lemma {:induction false} AllLostExactly(l: Lists, k: nat, version: DriverVersion)
    requires version != Doom19 && k <= |l.alloced| && |l.free| + |l.alloced| > 0
    ensures Released(l, k, version) == NONE <==> forall i | k <= i < |l.alloced| :: l.alloced[i].second
    decreases |l.alloced|
  {
    if k < |l.alloced| {
      var r := MovedToFree(l, k);
      if l.alloced[k].second {
        AllLostExactly(r, k, version);
        assert forall i | k + 1 <= i < |l.alloced| :: l.alloced[i] == r.alloced[i - 1];
        assert forall i | k <= i < |r.alloced| :: r.alloced[i] == l.alloced[i + 1];
      }
    }
  }

  // The oldest driver and 1.9 free the voice at the index, and with a second part its first part.
  lemma ReleasedNote(l: Lists, k: nat, version: DriverVersion)
    requires version != Doom2 && k < |l.alloced| && (version == Doom1 ==> Paired(l.alloced))
    ensures Released(l, k, version) ==
      var r := MovedToFree(l, k);
      if version == Doom1 && l.alloced[k].second then MovedToFree(r, k) else r
  {
    if version == Doom1 && l.alloced[k].second {
      assert Pair(l.alloced[k], l.alloced[k + 1]);
      assert MovedToFree(l, k).alloced[k] == l.alloced[k + 1];
    }
  }

  // ---------- Letting notes go ----------

  datatype KeyChoice = AnyKey | Key(key: int)

  predicate Plays(e: Entry, channel: int, key: KeyChoice) {
    e.channel == channel && (key.AnyKey? || e.key == key.key)
  }

  // The lists once the voices from the i-th on that play such a note were released.
  function SwitchedOff(l: Lists, i: nat, channel: int, key: KeyChoice, version: DriverVersion): Lists
    decreases |l.alloced| - i
  {
    if i >= |l.alloced| then l
    else if Plays(l.alloced[i], channel, key) then
      ReleasedShrinks(l, i, version);
      SwitchedOff(Released(l, i, version), i, channel, key, version)
    else SwitchedOff(l, i + 1, channel, key, version)
  }

  // None of the first i voices plays such a note.
  predicate QuietBefore(l: Lists, i: nat, channel: int, key: KeyChoice) {
    forall j | 0 <= j < i && j < |l.alloced| :: !Plays(l.alloced[j], channel, key)
  }

  lemma QuietAfterRelease(l: Lists, i: nat, channel: int, key: KeyChoice, version: DriverVersion)
    requires QuietBefore(l, i, channel, key) && i < |l.alloced|
    ensures QuietBefore(Released(l, i, version), i, channel, key)
  {
    hide Released, Plays;
    ReleasedShrinks(l, i, version);
    var r := Released(l, i, version);
    if r != NONE {
      forall j | 0 <= j < i
        ensures !Plays(r.alloced[j], channel, key)
      {
        assert r.alloced[j] == r.alloced[..i][j] == l.alloced[..i][j];
      }
    }
  }

  // No voice that plays such a note is left, whatever the driver.
  lemma {:induction false} NoneIsLeft(l: Lists, i: nat, channel: int, key: KeyChoice, version: DriverVersion)
    requires QuietBefore(l, i, channel, key)
    ensures forall e | e in SwitchedOff(l, i, channel, key, version).alloced :: !Plays(e, channel, key)
    decreases |l.alloced| - i
  {
    hide Released, Plays;
    if i < |l.alloced| {
      if Plays(l.alloced[i], channel, key) {
        QuietAfterRelease(l, i, channel, key, version);
        ReleasedShrinks(l, i, version);
        NoneIsLeft(Released(l, i, version), i, channel, key, version);
      } else {
        NoneIsLeft(l, i + 1, channel, key, version);
      }
    }
  }

  lemma QuietCanRelease(l: Lists, i: nat, channel: int, key: KeyChoice, version: DriverVersion)
    requires QuietBefore(l, i, channel, key) && i < |l.alloced| && Plays(l.alloced[i], channel, key)
    requires version == Doom1 ==> Paired(l.alloced)
    ensures CanRelease(l, i, version)
  {
    if version == Doom1 && i > 0 {
      assert !Plays(l.alloced[i - 1], channel, key);
      assert l.alloced[i - 1].second ==> Pair(l.alloced[i - 1], l.alloced[i - 1 + 1]);
    }
  }

  lemma {:induction false} SwitchedOffOk(l: Lists, i: nat, channel: int, key: KeyChoice, version: DriverVersion,
                                         voices: multiset<Voice>)
    requires Ok(l, voices, version) && QuietBefore(l, i, channel, key)
    ensures Ok(SwitchedOff(l, i, channel, key, version), voices, version)
    decreases |l.alloced| - i
  {
    hide Released, Plays, Pool, CanRelease, Paired;
    if i < |l.alloced| {
      if Plays(l.alloced[i], channel, key) {
        QuietCanRelease(l, i, channel, key, version);
        ReleasedOk(l, i, voices, version);
        QuietAfterRelease(l, i, channel, key, version);
        ReleasedShrinks(l, i, version);
        SwitchedOffOk(Released(l, i, version), i, channel, key, version, voices);
      } else {
        SwitchedOffOk(l, i + 1, channel, key, version, voices);
      }
    }
  }

  // The entries that play such a note, or those that do not, in their order.
  function Select(s: seq<Entry>, channel: int, key: KeyChoice, inside: bool): seq<Entry> {
    if s == [] then [] else
      (if Plays(s[0], channel, key) == inside then [s[0]] else []) + Select(s[1..], channel, key, inside)
  }

  // Under the oldest driver and under 1.9 exactly the voices that play such a note are freed, and
  // both lists keep their order.
  lemma {:induction false} ExactlyThoseFreed(l: Lists, i: nat, channel: int, key: KeyChoice, version: DriverVersion)
    requires version != Doom2 && i <= |l.alloced| && QuietBefore(l, i, channel, key)
    requires version == Doom1 ==> Paired(l.alloced)
    ensures SwitchedOff(l, i, channel, key, version) ==
      Lists(l.free + VoicesOf(Select(l.alloced[i..], channel, key, true)),
            l.alloced[..i] + Select(l.alloced[i..], channel, key, false))
    decreases |l.alloced| - i
  {
    hide Released, Plays, Paired, VoicesOf;
    var s := l.alloced;
    if i == |s| {
      assert s[..i] == s && s[i..] == [] && VoicesOf([]) == [];
    } else if !Plays(s[i], channel, key) {
      ExactlyThoseFreed(l, i + 1, channel, key, version);
      QuietHere(s, i, channel, key);
    } else {
      FreedHere(l, i, channel, key, version);
      var r := Released(l, i, version);
      QuietAfterRelease(l, i, channel, key, version);
      ReleasedShrinks(l, i, version);
      ExactlyThoseFreed(r, i, channel, key, version);
    }
  }

  lemma QuietHere(s: seq<Entry>, i: nat, channel: int, key: KeyChoice)
    requires i < |s| && !Plays(s[i], channel, key)
    ensures Select(s[i..], channel, key, true) == Select(s[i + 1..], channel, key, true)
    ensures s[..i] + Select(s[i..], channel, key, false) == s[..i + 1] + Select(s[i + 1..], channel, key, false)
  {
    hide Plays;
    assert s[i..][1..] == s[i + 1..];
    assert s[..i + 1] == s[..i] + [s[i]];
  }

  // One step of it.
  lemma FreedHere(l: Lists, i: nat, channel: int, key: KeyChoice, version: DriverVersion)
    requires version != Doom2 && i < |l.alloced| && QuietBefore(l, i, channel, key)
    requires (version == Doom1 ==> Paired(l.alloced)) && Plays(l.alloced[i], channel, key)
    ensures var s, r := l.alloced, Released(l, i, version);
      && (version == Doom1 ==> Paired(r.alloced))
      && i <= |r.alloced| && r.alloced[..i] == s[..i]
      && r.free + VoicesOf(Select(r.alloced[i..], channel, key, true))
         == l.free + VoicesOf(Select(s[i..], channel, key, true))
      && Select(r.alloced[i..], channel, key, false) == Select(s[i..], channel, key, false)
  {
    hide Released, Paired, Select;
    var s, r, m := l.alloced, Released(l, i, version), MovedToFree(l, i);
    ReleasedNote(l, i, version);
    QuietCanRelease(l, i, channel, key, version);
    if version == Doom1 {
      ReleasedOk(l, i, Pool(l), version);
    }
    assert m.alloced[i..] == s[i + 1..] && m.alloced[..i] == s[..i];
    SelectFirst(s, i, channel, key);
    if version == Doom1 && s[i].second {
      SecondHasFirst(s, i);
      assert m.alloced[i] == s[i + 1] && Plays(s[i + 1], channel, key);
      SelectFirst(s, i + 1, channel, key);
      assert r.alloced[i..] == s[i + 2..] && r.alloced[..i] == s[..i];
      assert r.free == l.free + [s[i].voice] + [s[i + 1].voice];
    }
  }

  lemma SecondHasFirst(s: seq<Entry>, i: nat)
    requires Paired(s) && i < |s| && s[i].second
    ensures i + 1 < |s| && Pair(s[i], s[i + 1])
  {}

  lemma SelectFirst(s: seq<Entry>, i: nat, channel: int, key: KeyChoice)
    requires i < |s| && Plays(s[i], channel, key)
    ensures VoicesOf(Select(s[i..], channel, key, true))
      == [s[i].voice] + VoicesOf(Select(s[i + 1..], channel, key, true))
    ensures Select(s[i..], channel, key, false) == Select(s[i + 1..], channel, key, false)
  {
    hide Plays;
    assert s[i..][1..] == s[i + 1..];
  }

  // ---------- Bending notes ----------

  // PitchBendEvent: the voices of the channel go behind the others, both in their order.
  function Bent(l: Lists, channel: int): Lists {
    Lists(l.free, Select(l.alloced, channel, AnyKey, false) + Select(l.alloced, channel, AnyKey, true))
  }

  // The two parts of the list hold each entry of it once.
  lemma {:induction false} SelectCounts(s: seq<Entry>, channel: int, key: KeyChoice)
    ensures multiset(Select(s, channel, key, true)) + multiset(Select(s, channel, key, false)) == multiset(s)
    ensures |Select(s, channel, key, true)| + |Select(s, channel, key, false)| == |s|
  {
    hide Plays;
    if s != [] {
      SelectCounts(s[1..], channel, key);
      assert s == [s[0]] + s[1..];
    }
  }

  // So they do with the voices.
  lemma {:induction false} SelectVoices(s: seq<Entry>, channel: int, key: KeyChoice)
    ensures multiset(VoicesOf(Select(s, channel, key, true))) + multiset(VoicesOf(Select(s, channel, key, false)))
      == multiset(VoicesOf(s))
  {
    hide Plays, VoicesOf;
    if s == [] {
    } else {
      var inside, outside := Select(s[1..], channel, key, true), Select(s[1..], channel, key, false);
      SelectVoices(s[1..], channel, key);
      VoicesFront(s[0], s[1..]);
      assert s == [s[0]] + s[1..];
      if Plays(s[0], channel, key) {
        VoicesFront(s[0], inside);
        assert Select(s, channel, key, false) == outside;
      } else {
        VoicesFront(s[0], outside);
        assert Select(s, channel, key, true) == inside;
      }
    }
  }

  lemma VoicesFront(e: Entry, s: seq<Entry>)
    ensures multiset(VoicesOf([e] + s)) == multiset{e.voice} + multiset(VoicesOf(s))
  {
    assert VoicesOf([e] + s) == [e.voice] + VoicesOf(s);
  }

  lemma VoicesJoin(a: seq<Entry>, b: seq<Entry>)
    ensures VoicesOf(a + b) == VoicesOf(a) + VoicesOf(b)
  {}

  // A channel keeps its pairs together.
  lemma {:induction false} SelectPaired(s: seq<Entry>, channel: int, inside: bool)
    requires Paired(s)
    ensures Paired(Select(s, channel, AnyKey, inside))
  {
    if s != [] {
      PairedTail(s);
      SelectPaired(s[1..], channel, inside);
      var rest := Select(s[1..], channel, AnyKey, inside);
      if Plays(s[0], channel, AnyKey) == inside {
        if s[0].second {
          SecondHasFirst(s, 0);
          assert rest[0] == s[1];
        }
        PairedFront(s[0], rest);
      }
    }
  }

  lemma PairedTail(s: seq<Entry>)
    requires Paired(s) && s != []
    ensures Paired(s[1..])
  {
    forall i | 0 <= i < |s[1..]| && s[1..][i].second
      ensures i + 1 < |s[1..]| && Pair(s[1..][i], s[1..][i + 1])
    {
      assert s[1..][i] == s[i + 1] && Pair(s[i + 1], s[i + 1 + 1]);
    }
  }

  lemma PairedFront(e: Entry, rest: seq<Entry>)
    requires Paired(rest) && (e.second ==> rest != [] && Pair(e, rest[0]))
    ensures Paired([e] + rest)
  {
    var s := [e] + rest;
    forall i | 0 <= i < |s| && s[i].second
      ensures i + 1 < |s| && Pair(s[i], s[i + 1])
    {
      if i > 0 { assert s[i] == rest[i - 1] && Pair(rest[i - 1], rest[i - 1 + 1]); }
    }
  }

  lemma PairedJoin(a: seq<Entry>, b: seq<Entry>)
    requires Paired(a) && Paired(b)
    ensures Paired(a + b)
  {
    var s := a + b;
    forall i | 0 <= i < |s| && s[i].second
      ensures i + 1 < |s| && Pair(s[i], s[i + 1])
    {
      if i < |a| {
        assert Pair(a[i], a[i + 1]);
      } else {
        assert Pair(b[i - |a|], b[i - |a| + 1]);
      }
    }
  }

  lemma BentOk(l: Lists, channel: int, voices: multiset<Voice>, version: DriverVersion)
    requires Ok(l, voices, version)
    ensures Ok(Bent(l, channel), voices, version)
  {
    hide Paired;
    SelectVoices(l.alloced, channel, AnyKey);
    var others, own := Select(l.alloced, channel, AnyKey, false), Select(l.alloced, channel, AnyKey, true);
    VoicesJoin(others, own);
    if version == Doom1 {
      SelectPaired(l.alloced, channel, false);
      SelectPaired(l.alloced, channel, true);
      PairedJoin(others, own);
    }
  }

  // ---------- Discarding a note ----------

  // The search of ReplaceExistingVoice among the first n voices.
  function Victim19(s: seq<Entry>, n: nat): (r: nat)
    requires n <= |s|
    ensures r == 0 || r < n
  {
    if n == 0 then 0 else
      var r := Victim19(s, n - 1);
      if s[n - 1].second || s[n - 1].channel >= s[r].channel then n - 1 else r
  }

  // The last voice of the highest channel, among those from the last second part on.
  lemma {:induction false} Victim19Is(s: seq<Entry>, n: nat)
    requires 0 < n <= |s|
    ensures var r := Victim19(s, n);
      && (forall i | r < i < n :: !s[i].second && s[i].channel < s[r].channel)
      && (forall i | 0 <= i < r :: s[i].channel <= s[r].channel || exists j | i < j <= r :: s[j].second)
  {
    if n > 1 { Victim19Is(s, n - 1); }
  }

  // The search of ReplaceExistingVoiceDoom1.
  function VictimDoom1(s: seq<Entry>, n: nat): (r: nat)
    requires n <= |s|
    ensures r == 0 || r < n
  {
    if n == 0 then 0 else
      var r := VictimDoom1(s, n - 1);
      if s[n - 1].channel > s[r].channel then n - 1 else r
  }

  // The first voice of the highest channel.
  lemma {:induction false} VictimDoom1Is(s: seq<Entry>, n: nat)
    requires 0 < n <= |s|
    ensures var r := VictimDoom1(s, n);
      && (forall i | 0 <= i < n :: s[i].channel <= s[r].channel)
      && (forall i | 0 <= i < r :: s[i].channel < s[r].channel)
  {
    if n > 1 { VictimDoom1Is(s, n - 1); }
  }

  const LOWEST: int := 0x8000

  // The search of ReplaceExistingVoiceDoom2: the lowest priority so far, and the voice.
  function SearchDoom2(s: seq<Entry>, n: nat, channel: int): (r: (int, nat))
    requires n <= |s|
    ensures r.1 == 0 || r.1 < n
  {
    if n == 0 then (LOWEST, 0) else
      var r := SearchDoom2(s, n - 1, channel);
      if Priority(s[n - 1]) < r.0 && s[n - 1].channel >= channel then (Priority(s[n - 1]), n - 1) else r
  }

  // The last three voices are spared.
  function VictimDoom2(s: seq<Entry>, channel: int): (r: nat)
    ensures r == 0 || r < |s| - 3
  {
    SearchDoom2(s, if |s| < 3 then 0 else |s| - 3, channel).1
  }

  predicate Candidate(e: Entry, channel: int) {
    e.channel >= channel && Priority(e) < LOWEST
  }

  // The first of the lowest priority among the channels not below the new one, or the first of all
  // if there is none.
  lemma {:induction false} SearchDoom2Is(s: seq<Entry>, n: nat, channel: int)
    requires n <= |s|
    ensures var (p, r) := SearchDoom2(s, n, channel);
      if p < LOWEST then
        && r < n && Candidate(s[r], channel) && Priority(s[r]) == p
        && (forall i | 0 <= i < n && Candidate(s[i], channel) ::
              p < Priority(s[i]) || (p == Priority(s[i]) && r <= i))
      else p == LOWEST && r == 0 && forall i | 0 <= i < n :: !Candidate(s[i], channel)
  {
    if n > 0 { SearchDoom2Is(s, n - 1, channel); }
  }

  // Every voice but the last three is looked at.
  lemma VictimDoom2Is(s: seq<Entry>, channel: int)
    ensures var r := VictimDoom2(s, channel);
      if exists i :: 0 <= i < |s| - 3 && Candidate(s[i], channel) then
        && r < |s| - 3 && Candidate(s[r], channel)
        && (forall i | 0 <= i < |s| - 3 && Candidate(s[i], channel) ::
              Priority(s[r]) < Priority(s[i]) || (Priority(s[r]) == Priority(s[i]) && r <= i))
      else r == 0
  {
    SearchDoom2Is(s, if |s| < 3 then 0 else |s| - 3, channel);
  }

  // ---------- Playing a note ----------

  // How many free voices a note is given.
  function Wanted(double: bool, version: DriverVersion, opl3: bool): (n: nat)
    ensures 1 <= n <= 2
  {
    match version
    case Doom1 => if opl3 && double then 2 else 1
    case Doom2 => if double then 2 else 1
    case Doom19 => 1
  }

  // ReplaceExistingVoiceDoom1, until there are at most `limit` notes.
  function Cut(l: Lists, limit: nat): Lists
    decreases |l.alloced|
  {
    if |l.alloced| <= limit then l else
      var k := VictimDoom1(l.alloced, |l.alloced|);
      ReleasedShrinks(l, k, Doom1);
      Cut(Released(l, k, Doom1), limit)
  }

  function ReplacedDoom2(l: Lists, channel: int): Lists {
    Released(l, VictimDoom2(l.alloced, channel), Doom2)
  }

  // The part of KeyOnEvent that makes room, with `num` voices in all.
  function Room(l: Lists, channel: int, double: bool, version: DriverVersion, opl3: bool, num: nat): Lists
    requires num > 2
  {
    match version
    case Doom1 => Cut(l, num - Wanted(double, version, opl3))
    case Doom2 =>
      var m := if |l.alloced| == num then ReplacedDoom2(l, channel) else l;
      if |m.alloced| == num - 1 && double then ReplacedDoom2(m, channel) else m
    case Doom19 =>
      if l.free == [] then Released(l, Victim19(l.alloced, |l.alloced|), version) else l
  }

  // VoiceKeyOn: takes a free voice, if there is one.
  function KeyedOn(l: Lists, channel: int, key: int, note: int, instrument: Instrument, second: bool): Lists {
    if l.free == [] then l else
      var sounding := if instrument.fixedNote >= 0 then instrument.fixedNote else note;
      Lists(l.free[1..], l.alloced + [Entry(l.free[0], channel, key, sounding, instrument, second)])
  }

  // The oldest driver on an OPL2 knows no second parts.
  predicate HasSeconds(version: DriverVersion, opl3: bool) {
    !(version == Doom1 && !opl3)
  }

  // The rest of KeyOnEvent: the second part last under 1.9, and first before it.
  function Started(l: Lists, channel: int, key: int, note: int, instrument: Instrument,
                   version: DriverVersion, opl3: bool): Lists {
    if !instrument.double then KeyedOn(l, channel, key, note, instrument, false)
    else
      var early := version != Doom19 && HasSeconds(version, opl3);
      var late := version == Doom19;
      KeyedOn(KeyedOn(l, channel, key, note, instrument, early), channel, key, note, instrument, late)
  }

  function NoteStarted(l: Lists, channel: int, key: int, note: int, instrument: Instrument,
                       version: DriverVersion, opl3: bool, num: nat): Lists
    requires num > 2
  {
    Started(Room(l, channel, instrument.double, version, opl3, num), channel, key, note, instrument, version, opl3)
  }

  lemma {:induction false} CutOk(l: Lists, limit: nat, voices: multiset<Voice>)
    requires Ok(l, voices, Doom1)
    ensures Ok(Cut(l, limit), voices, Doom1) && |Cut(l, limit).alloced| <= limit
    decreases |l.alloced|
  {
    hide Released, Pool, Ok;
    if |l.alloced| > limit {
      var k := VictimDoom1(l.alloced, |l.alloced|);
      VictimOk(l, voices);
      ReleasedOk(l, k, voices, Doom1);
      ReleasedShrinks(l, k, Doom1);
      CutOk(Released(l, k, Doom1), limit, voices);
    }
  }

  // The first voice of a channel is not the first part of a note whose second part comes before.
  lemma VictimOk(l: Lists, voices: multiset<Voice>)
    requires Ok(l, voices, Doom1) && l.alloced != []
    ensures CanRelease(l, VictimDoom1(l.alloced, |l.alloced|), Doom1)
  {
    hide Pool;
    VictimDoom1Is(l.alloced, |l.alloced|);
    var k := VictimDoom1(l.alloced, |l.alloced|);
    if k > 0 {
      assert l.alloced[k - 1].second ==> Pair(l.alloced[k - 1], l.alloced[k - 1 + 1]);
    }
  }

  // There is room for the note afterwards, unless the driver has lost its voices.
  lemma RoomOk(l: Lists, channel: int, double: bool, version: DriverVersion, opl3: bool, voices: multiset<Voice>)
    requires Ok(l, voices, version) && |voices| > 2
    ensures var r := Room(l, channel, double, version, opl3, |voices|);
      && Ok(r, voices, version)
      && (|r.free| >= Wanted(double, version, opl3) || (version == Doom2 && r == NONE))
  {
    hide Released, Pool, Paired, Cut, CanRelease;
    var r := Room(l, channel, double, version, opl3, |voices|);
    match version {
      case Doom1 =>
        CutOk(l, |voices| - Wanted(double, version, opl3), voices);
      case Doom2 =>
        if |l.alloced| == |voices| {
          ReplacedOk(l, channel, voices);
        }
        var m := if |l.alloced| == |voices| then ReplacedDoom2(l, channel) else l;
        if |m.alloced| == |voices| - 1 && double {
          ReplacedOk(m, channel, voices);
        }
        if m != NONE { PoolSize(m, voices); }
        if l != NONE { PoolSize(l, voices); }
      case Doom19 =>
        PoolSize(l, voices);
        if l.free == [] {
          var k := Victim19(l.alloced, |l.alloced|);
          CanRelease19(l, k);
          ReleasedOk(l, k, voices, version);
          ReleasedShrinks(l, k, version);
        }
    }
    if Pool(r) == voices { PoolSize(r, voices); }
  }

  lemma CanRelease19(l: Lists, k: nat)
    requires k < |l.alloced|
    ensures CanRelease(l, k, Doom19)
  {}

  lemma ReplacedOk(l: Lists, channel: int, voices: multiset<Voice>)
    requires Ok(l, voices, Doom2) && |l.alloced| > 1
    ensures Ok(ReplacedDoom2(l, channel), voices, Doom2) && |ReplacedDoom2(l, channel).alloced| < |l.alloced|
  {
    hide Released, Pool;
    var k := VictimDoom2(l.alloced, channel);
    ReleasedOk(l, k, voices, Doom2);
    ReleasedShrinks(l, k, Doom2);
  }

  lemma KeyedOnPool(l: Lists, channel: int, key: int, note: int, instrument: Instrument, second: bool)
    ensures Pool(KeyedOn(l, channel, key, note, instrument, second)) == Pool(l)
  {
    var r := KeyedOn(l, channel, key, note, instrument, second);
    if l.free != [] {
      assert l.free == [l.free[0]] + l.free[1..];
      assert VoicesOf(r.alloced) == VoicesOf(l.alloced) + [l.free[0]];
    }
  }

  lemma StartedOk(l: Lists, channel: int, key: int, note: int, instrument: Instrument,
                  version: DriverVersion, opl3: bool, voices: multiset<Voice>)
    requires Ok(l, voices, version)
    requires |l.free| >= Wanted(instrument.double, version, opl3) || (version == Doom2 && l == NONE)
    ensures Ok(Started(l, channel, key, note, instrument, version, opl3), voices, version)
  {
    hide Pool, Paired;
    var early := instrument.double && version != Doom19 && HasSeconds(version, opl3);
    KeyedOnPool(l, channel, key, note, instrument, early);
    var m := KeyedOn(l, channel, key, note, instrument, early);
    KeyedOnPool(m, channel, key, note, instrument, instrument.double && version == Doom19);
    if version == Doom1 {
      var r := Started(l, channel, key, note, instrument, version, opl3);
      var added := r.alloced[|l.alloced|..];
      assert r.alloced == l.alloced + added;
      assert Paired(added) by { NewNotePaired(added); }
      PairedJoin(l.alloced, added);
    }
  }

  lemma NewNotePaired(added: seq<Entry>)
    requires |added| == 2 && added[0].second ==> Pair(added[0], added[1])
    requires |added| <= 2 && (|added| == 1 ==> !added[0].second) && (|added| == 2 ==> !added[1].second)
    ensures Paired(added)
  {}

  // Whatever was let go for it, a note sounds: under 1.9 at least its first part, and under the
  // oldest driver all the parts that it knows.
  lemma NoteSounds(l: Lists, channel: int, key: int, note: int, instrument: Instrument,
                   version: DriverVersion, opl3: bool, voices: multiset<Voice>)
    requires Ok(l, voices, version) && |voices| > 2 && version != Doom2
    ensures var s := NoteStarted(l, channel, key, note, instrument, version, opl3, |voices|).alloced;
      && |s| > 0 && Plays(s[|s| - 1], channel, Key(key)) && s[|s| - 1].instrument == instrument
      && (!instrument.double || version == Doom1 ==> !s[|s| - 1].second)
      && (instrument.double && (if version == Doom1 then opl3 else |l.free| >= 2) ==>
            |s| > 1 && Pair(s[|s| - 2], s[|s| - 1]) == (version == Doom1)
            && Plays(s[|s| - 2], channel, Key(key)) && s[|s| - 2].instrument == instrument
            && s[|s| - 2].second != s[|s| - 1].second)
  {
    hide Room, Ok;
    RoomOk(l, channel, instrument.double, version, opl3, voices);
    KeptFree(l, channel, instrument.double, opl3, voices);
  }

  lemma KeptFree(l: Lists, channel: int, double: bool, opl3: bool, voices: multiset<Voice>)
    requires |voices| > 2
    ensures l.free != [] ==> Room(l, channel, double, Doom19, opl3, |voices|) == l
  {}

  // ---------- Whole songs ----------

  // What a song does to the voices.
  datatype Event =
    | NoteOn(channel: int, key: int, note: int, instrument: Instrument)
    | NotesOff(channel: int, choice: KeyChoice)
    | Bend(channel: int, bend: int)

  function Step(l: Lists, e: Event, version: DriverVersion, opl3: bool, num: nat): Lists
    requires num > 2
  {
    match e
    case NoteOn(channel, key, note, instrument) =>
      NoteStarted(l, channel, key, note, instrument, version, opl3, num)
    case NotesOff(channel, choice) => SwitchedOff(l, 0, channel, choice, version)
    case Bend(channel, _) => Bent(l, channel)
  }

  function Run(l: Lists, events: seq<Event>, version: DriverVersion, opl3: bool, num: nat): Lists
    requires num > 2
  {
    if events == [] then l
    else Step(Run(l, events[..|events| - 1], version, opl3, num), events[|events| - 1], version, opl3, num)
  }

  lemma StepOk(l: Lists, e: Event, version: DriverVersion, opl3: bool, voices: multiset<Voice>)
    requires Ok(l, voices, version) && |voices| > 2
    ensures Ok(Step(l, e, version, opl3, |voices|), voices, version)
  {
    hide Ok, Room, Started, SwitchedOff, Bent;
    match e {
      case NoteOn(channel, key, note, instrument) =>
        RoomOk(l, channel, instrument.double, version, opl3, voices);
        var m := Room(l, channel, instrument.double, version, opl3, |voices|);
        StartedOk(m, channel, key, note, instrument, version, opl3, voices);
      case NotesOff(channel, choice) =>
        SwitchedOffOk(l, 0, channel, choice, version, voices);
      case Bend(channel, _) =>
        BentOk(l, channel, voices, version);
    }
  }

  // In every song the oldest driver and 1.9 keep all voices, and the other one keeps them or has
  // lost them all.
  lemma {:induction false} VoicesKept(all: seq<Voice>, events: seq<Event>, version: DriverVersion, opl3: bool)
    requires |all| > 2
    ensures Ok(Run(Lists(all, []), events, version, opl3, |all|), multiset(all), version)
    ensures version != Doom2 ==> Pool(Run(Lists(all, []), events, version, opl3, |all|)) == multiset(all)
  {
    hide Step;
    if events == [] {
      assert VoicesOf([]) == [];
    } else {
      VoicesKept(all, events[..|events| - 1], version, opl3);
      assert |multiset(all)| == |all|;
      StepOk(Run(Lists(all, []), events[..|events| - 1], version, opl3, |all|), events[|events| - 1],
             version, opl3, multiset(all));
    }
  }

  // A driver that has lost its voices stays silent.
  lemma {:induction false} LostForGood(events: seq<Event>, opl3: bool, num: nat)
    requires num > 2
    ensures Run(NONE, events, Doom2, opl3, num) == NONE
  {
    if events != [] { LostForGood(events[..|events| - 1], opl3, num); }
  }

  // ---------- What loses all voices ----------

  predicate AllSecond(s: seq<Entry>, k: nat) {
    forall i | k <= i < |s| :: s[i].second
  }

  // What a release that loses nothing takes: the second parts from `k` on, and what follows them.
  lemma {:induction false} ReleasedRun(l: Lists, k: nat) returns (j: nat)
    requires k < |l.alloced| && !AllSecond(l.alloced, k)
    ensures k <= j < |l.alloced| && !l.alloced[j].second
    ensures Released(l, k, Doom2).alloced == l.alloced[..k] + l.alloced[j + 1..]
    ensures Released(l, k, Doom2).free != []
    decreases |l.alloced|
  {
    var s, r := l.alloced, MovedToFree(l, k);
    if s[k].second {
      var i :| k <= i < |s| && !s[i].second;
      assert r.alloced[i - 1] == s[i];
      var h := ReleasedRun(r, k);
      j := h + 1;
      assert r.alloced[h] == s[j] && r.alloced[..k] == s[..k] && r.alloced[h + 1..] == s[j + 1..];
    } else {
      j := k;
    }
  }

  // From the i-th voice on, there is one that plays such a note and after which, as it is itself,
  // all are second parts.
  ghost predicate EndsInSeconds(s: seq<Entry>, i: nat, channel: int, key: KeyChoice) {
    exists k | i <= k < |s| :: Plays(s[k], channel, key) && AllSecond(s, k)
  }

  // The second driver loses all voices in a key-off exactly then.
  lemma {:induction false} OffLosesExactly(l: Lists, i: nat, channel: int, key: KeyChoice)
    requires l != NONE
    ensures SwitchedOff(l, i, channel, key, Doom2) == NONE <==> EndsInSeconds(l.alloced, i, channel, key)
    decreases |l.alloced| - i
  {
    hide Released, Plays;
    var s := l.alloced;
    if i < |s| {
      if !Plays(s[i], channel, key) {
        OffLosesExactly(l, i + 1, channel, key);
      } else if AllSecond(s, i) {
        AllLostExactly(l, i, Doom2);
      } else {
        var j := ReleasedRun(l, i);
        var r := Released(l, i, Doom2);
        ReleasedShrinks(l, i, Doom2);
        OffLosesExactly(r, i, channel, key);
        AfterTheRun(s, r.alloced, i, j, channel, key);
      }
    }
  }

  lemma AfterTheRun(s: seq<Entry>, r: seq<Entry>, i: nat, j: nat, channel: int, key: KeyChoice)
    requires i <= j < |s| && !s[j].second && r == s[..i] + s[j + 1..]
    ensures EndsInSeconds(s, i, channel, key) <==> EndsInSeconds(r, i, channel, key)
  {
    hide Plays;
    var d := j + 1 - i;
    assert forall k | i <= k < |r| :: r[k] == s[k + d];
    if EndsInSeconds(s, i, channel, key) {
      var k :| i <= k < |s| && Plays(s[k], channel, key) && AllSecond(s, k);
      assert k > j;
      assert r[k - d] == s[k] && AllSecond(r, k - d);
    }
    if EndsInSeconds(r, i, channel, key) {
      var k :| i <= k < |r| && Plays(r[k], channel, key) && AllSecond(r, k);
      forall h | k + d <= h < |s|
        ensures s[h].second
      {
        assert r[h - d] == s[h];
      }
      assert AllSecond(s, k + d);
    }
  }

  // The note that is given up for a new one, and all after it, are second parts.
  ghost predicate VictimLosesAll(l: Lists, channel: int) {
    AllSecond(l.alloced, VictimDoom2(l.alloced, channel))
  }

  // What loses all voices of the second driver: a key-off as above, or a new note for which a voice,
  // or after it another one, is given up as above.
  ghost predicate Loses(l: Lists, e: Event, num: nat)
    requires num > 2
  {
    match e
    case NotesOff(channel, choice) => EndsInSeconds(l.alloced, 0, channel, choice)
    case Bend(_, _) => false
    case NoteOn(channel, _, _, instrument) =>
      var full := |l.alloced| == num;
      var m := if full then ReplacedDoom2(l, channel) else l;
      || (full && VictimLosesAll(l, channel))
      || (instrument.double && |m.alloced| == num - 1 && VictimLosesAll(m, channel))
  }

  // One event loses all voices of the second driver exactly then.
  lemma LosesAllExactly(l: Lists, e: Event, opl3: bool, num: nat)
    requires num > 2 && l != NONE
    ensures Step(l, e, Doom2, opl3, num) == NONE <==> Loses(l, e, num)
  {
    hide Released, SwitchedOff, AllSecond, Select;
    match e {
      case NotesOff(channel, choice) =>
        OffLosesExactly(l, 0, channel, choice);
      case Bend(channel, _) =>
        SelectCounts(l.alloced, channel, AnyKey);
      case NoteOn(channel, _, _, instrument) =>
        var m := if |l.alloced| == num then ReplacedDoom2(l, channel) else l;
        if |l.alloced| == num { ReplacedLoses(l, channel); }
        if |m.alloced| == num - 1 { ReplacedLoses(m, channel); }
    }
  }

  // A song loses them exactly if one of its events does.
  lemma {:induction false} RunLosesExactly(l: Lists, events: seq<Event>, opl3: bool, num: nat)
    requires num > 2 && l != NONE
    ensures Run(l, events, Doom2, opl3, num) == NONE
      <==> exists k | 0 <= k < |events| :: LosesAt(l, events, k, opl3, num)
  {
    hide Step, Loses;
    if events != [] {
      var last := |events| - 1;
      var before := events[..last];
      RunLosesExactly(l, before, opl3, num);
      forall k | 0 <= k < last
        ensures LosesAt(l, before, k, opl3, num) <==> LosesAt(l, events, k, opl3, num)
      {
        assert before[..k] == events[..k];
      }
      var m := Run(l, before, Doom2, opl3, num);
      if m == NONE {
        LostForGood([events[last]], opl3, num);
        RunOne(NONE, events[last], Doom2, opl3, num);
      } else {
        LosesAllExactly(m, events[last], opl3, num);
        assert LosesAt(l, events, last, opl3, num) <==> Loses(m, events[last], num);
      }
    }
  }

  // The k-th event of a song loses all voices.
  ghost predicate LosesAt(l: Lists, events: seq<Event>, k: nat, opl3: bool, num: nat)
    requires num > 2 && k < |events|
  {
    var m := Run(l, events[..k], Doom2, opl3, num);
    m != NONE && Loses(m, events[k], num)
  }

  lemma ReplacedLoses(l: Lists, channel: int)
    requires |l.alloced| > 1
    ensures ReplacedDoom2(l, channel) == NONE <==> VictimLosesAll(l, channel)
  {
    AllLostExactly(l, VictimDoom2(l.alloced, channel), Doom2);
  }

  // ---------- A song that loses all voices ----------

  const DOUBLE: Instrument := Instrument(0, true, -1, 128, (Part(10, 0), Part(20, 0)))
  const SINGLE: Instrument := Instrument(1, false, -1, 128, (Part(20, 0), Part(0, 0)))

  function Singles(n: nat): (events: seq<Event>)
    ensures |events| == n
  {
    seq(n, i => NoteOn(0, 40 + i, 40 + i, SINGLE))
  }

  // A double note, seven single ones, one more for which the first part of the double note is
  // given up, and then a bend and the end of the double note.
  function FatalSong(): seq<Event> {
    [NoteOn(1, 60, 60, DOUBLE)] + Singles(7)
    + [NoteOn(0, 50, 50, SINGLE), Bend(1, 0), NotesOff(1, Key(60))]
  }

  lemma {:induction false} RunJoin(l: Lists, a: seq<Event>, b: seq<Event>, version: DriverVersion, opl3: bool, num: nat)
    requires num > 2
    ensures Run(l, a + b, version, opl3, num) == Run(Run(l, a, version, opl3, num), b, version, opl3, num)
  {
    hide Step;
    if b == [] {
      assert a + b == a;
    } else {
      RunJoin(l, a, b[..|b| - 1], version, opl3, num);
      assert (a + b)[..|a + b| - 1] == a + b[..|b| - 1];
    }
  }

  lemma RunOne(l: Lists, e: Event, version: DriverVersion, opl3: bool, num: nat)
    requires num > 2
    ensures Run(l, [e], version, opl3, num) == Step(l, e, version, opl3, num)
  {
    hide Step;
    assert Run(l, [], version, opl3, num) == l;
  }

  function SingleEntries(vs: seq<Voice>, n: nat): seq<Entry>
    requires n <= |vs|
  {
    seq(n, i requires 0 <= i < n => Entry(vs[i], 0, 40 + i, 40 + i, SINGLE, false))
  }

  // Single notes take the free voices in turn.
  lemma {:induction false} SinglesPlay(vs: seq<Voice>, before: seq<Entry>, n: nat)
    requires n <= |vs| && |before| + |vs| == 9
    ensures Run(Lists(vs, before), Singles(n), Doom2, false, 9) == Lists(vs[n..], before + SingleEntries(vs, n))
  {
    if n > 0 {
      SinglesPlay(vs, before, n - 1);
      assert Singles(n)[..n - 1] == Singles(n - 1);
      assert before + SingleEntries(vs, n) == before + SingleEntries(vs, n - 1) + [SingleEntries(vs, n)[n - 1]];
    }
  }

  lemma {:induction false} FirstPartIsVictim(s: seq<Entry>, n: nat)
    requires 2 <= n <= |s| && s[0].channel == s[1].channel == 1
    requires Priority(s[0]) == 20 && Priority(s[1]) == 10
    requires forall i | 2 <= i < n :: Priority(s[i]) == 20
    ensures SearchDoom2(s, n, 0) == (10, 1)
  {
    if n == 2 {
      assert SearchDoom2(s, 0, 0) == (LOWEST, 0);
      assert SearchDoom2(s, 1, 0) == (20, 0);
    } else {
      FirstPartIsVictim(s, n - 1);
    }
  }

  lemma {:induction false} SelectNone(s: seq<Entry>, channel: int, key: KeyChoice)
    requires forall e | e in s :: !Plays(e, channel, key)
    ensures Select(s, channel, key, true) == [] && Select(s, channel, key, false) == s
  {
    if s != [] { SelectNone(s[1..], channel, key); }
  }

  // From its start, with the nine voices of an OPL2, the second driver can lose all of them.
  lemma VoicesCanBeLost(vs: seq<Voice>)
    requires |vs| == 9
    ensures Run(Lists(vs, []), FatalSong(), Doom2, false, 9) == NONE
  {
    hide Run, Step, SwitchedOff, Released, Select, Bent;
    var start := Lists(vs, []);
    var first: seq<Event> := [NoteOn(1, 60, 60, DOUBLE)];
    var e1, e2, e3 := NoteOn(0, 50, 50, SINGLE), Bend(1, 0), NotesOff(1, Key(60));
    var second := Entry(vs[0], 1, 60, 60, DOUBLE, true);
    var both := [second, Entry(vs[1], 1, 60, 60, DOUBLE, false)];
    // The double note.
    RunOne(start, first[0], Doom2, false, 9);
    DoubleNote(vs);
    // The single ones.
    SinglesPlay(vs[2..], both, 7);
    RunJoin(start, first, Singles(7), Doom2, false, 9);
    var singles := SingleEntries(vs[2..], 7);
    var full := Lists([], both + singles);
    assert vs[2..][7..] == [];
    // The one too many.
    OneTooMany(full, vs, singles);
    var orphaned := Lists([], [second] + singles + [Entry(vs[1], 0, 50, 50, SINGLE, false)]);
    RunJoin(start, first + Singles(7), [e1], Doom2, false, 9);
    RunOne(full, e1, Doom2, false, 9);
    // The bend.
    var others := singles + [Entry(vs[1], 0, 50, 50, SINGLE, false)];
    OrphanGoesLast(second, others);
    assert orphaned.alloced == [second] + others;
    RunJoin(start, first + Singles(7) + [e1], [e2], Doom2, false, 9);
    RunOne(orphaned, e2, Doom2, false, 9);
    var bent := Lists([], others + [second]);
    assert Step(orphaned, e2, Doom2, false, 9) == bent by { BendStep(orphaned); }
    // The end of the double note.
    OrphanLosesAll(bent, others, second);
    RunJoin(start, first + Singles(7) + [e1] + [e2], [e3], Doom2, false, 9);
    RunOne(bent, e3, Doom2, false, 9);
    OffStep(bent);
    assert FatalSong() == first + Singles(7) + [e1] + [e2] + [e3];
  }

  lemma DoubleNote(vs: seq<Voice>)
    requires |vs| == 9
    ensures Step(Lists(vs, []), NoteOn(1, 60, 60, DOUBLE), Doom2, false, 9)
      == Lists(vs[2..], [Entry(vs[0], 1, 60, 60, DOUBLE, true), Entry(vs[1], 1, 60, 60, DOUBLE, false)])
  {}

  lemma OneTooMany(full: Lists, vs: seq<Voice>, singles: seq<Entry>)
    requires |vs| == 9 && singles == SingleEntries(vs[2..], 7)
    requires full == Lists([],
        [Entry(vs[0], 1, 60, 60, DOUBLE, true), Entry(vs[1], 1, 60, 60, DOUBLE, false)] + singles)
    ensures Step(full, NoteOn(0, 50, 50, SINGLE), Doom2, false, 9)
      == Lists([], [Entry(vs[0], 1, 60, 60, DOUBLE, true)] + singles + [Entry(vs[1], 0, 50, 50, SINGLE, false)])
  {
    FirstPartIsVictim(full.alloced, 6);
    assert Without(full.alloced, 1) == [full.alloced[0]] + singles;
    assert ReplacedDoom2(full, 0) == MovedToFree(full, 1);
  }

  lemma OrphanGoesLast(second: Entry, others: seq<Entry>)
    requires second.channel == 1 && forall e | e in others :: e.channel == 0
    ensures Select([second] + others, 1, AnyKey, true) == [second]
    ensures Select([second] + others, 1, AnyKey, false) == others
  {
    SelectNone(others, 1, AnyKey);
    assert ([second] + others)[1..] == others;
  }

  lemma OrphanLosesAll(l: Lists, others: seq<Entry>, second: Entry)
    requires l.alloced == others + [second] && second.second && Plays(second, 1, Key(60))
    ensures SwitchedOff(l, 0, 1, Key(60), Doom2) == NONE
  {
    assert l.alloced[|others|] == second && AllSecond(l.alloced, |others|);
    OffLosesExactly(l, 0, 1, Key(60));
  }

  lemma BendStep(l: Lists)
    ensures Step(l, Bend(1, 0), Doom2, false, 9)
      == Lists(l.free, Select(l.alloced, 1, AnyKey, false) + Select(l.alloced, 1, AnyKey, true))
  {}

  lemma OffStep(l: Lists)
    ensures Step(l, NotesOff(1, Key(60)), Doom2, false, 9) == SwitchedOff(l, 0, 1, Key(60), Doom2)
  {}
}
