// i_oplmusic.c: the arrays of the driver, which do what the lists do, and the frequencies of its
// voices.
module OplDriver {
  import opened OplPitch
  import opened OplVoices

  const CHANNELS: nat := 16

  // TrackChannelForEvent: MIDI and MUS have the percussion channel in different places.
  function TrackChannel(channelNum: nat): nat {
    if channelNum == 9 then 15 else if channelNum == 15 then 9 else channelNum
  }

  // The frequency of a voice under a pitch bend.
  function Tuned(e: Entry, bend: int): Pitch {
    FrequencyOf(e.note, e.instrument.fixedNote >= 0, PartOf(e).noteOffset, bend, e.second, e.instrument.fineTuning)
  }

  // The two percussion channels change places, and no other does.
  lemma TrackChannelSwaps(channelNum: nat)
    ensures TrackChannel(TrackChannel(channelNum)) == channelNum
    ensures TrackChannel(9) == 15 && (channelNum != 9 && channelNum != 15 <==> TrackChannel(channelNum) == channelNum)
  {}

  // A note that is not fixed, and need not be moved by octaves: 32 steps for each semitone of it and
  // of the offset of its part, one for each step of the bend, and half of the tuning for a second part.
  lemma TunedHeight(e: Entry, bend: int)
    requires e.instrument.fixedNote < 0 && 0 <= e.note + PartOf(e).noteOffset <= 95
    requires 0 <= Steps(e, bend) < 284 + 8 * 384
    ensures Height(Tuned(e, bend)) == Steps(e, bend)
  {
    hide PitchOf;
    HeightInRange(Steps(e, bend));
  }

  function Steps(e: Entry, bend: int): int {
    64 + 32 * e.note + bend
    + (if e.second then 32 * e.instrument.parts.1.noteOffset + e.instrument.fineTuning / 2 - 64
       else 32 * e.instrument.parts.0.noteOffset)
  }

  // The voice is programmed as the entry says.
  predicate Programmed(e: Entry)
    reads e.voice`channel, e.voice`key, e.voice`note, e.voice`loaded, e.voice`priority
  {
    && e.voice.channel == e.channel && e.voice.key == e.key && e.voice.note == e.note
    && e.voice.loaded == Loaded(e.instrument, e.second) && e.voice.priority == Priority(e)
  }

  // It sounds at the frequency that its channel asks for.
  predicate InTune(e: Entry, bends: seq<int>)
    requires 0 <= e.channel < |bends|
    reads e.voice`freq
  {
    e.voice.freq == On(Tuned(e, bends[e.channel]))
  }

  // The priority belongs to what is loaded.
  predicate RightPriority(v: Voice)
    reads v`loaded, v`priority
  {
    v.loaded.Loaded? ==> v.priority == (if v.loaded.second then v.loaded.instrument.parts.1.priority
                                        else v.loaded.instrument.parts.0.priority)
  }

  ghost predicate Distinct(s: seq<Voice>) {
    forall i, j | 0 <= i < j < |s| :: s[i] != s[j]
  }

  // Every voice of the lists is one of those of the chip, and stands in one place.
  ghost predicate Apart(l: Lists, voices: seq<Voice>) {
    && Distinct(l.free) && Distinct(VoicesOf(l.alloced))
    && (forall e | e in l.alloced :: e.voice in voices && e.voice !in l.free)
    && (forall v | v in l.free :: v in voices)
  }

  lemma VoicesAppend(s: seq<Entry>, e: Entry)
    ensures VoicesOf(s + [e]) == VoicesOf(s) + [e.voice]
  {}

  lemma {:induction false} DistinctCounts(s: seq<Voice>)
    requires Distinct(s)
    ensures forall v | v in s :: multiset(s)[v] == 1
  {
    if s != [] {
      DistinctCounts(s[1..]);
      assert s == [s[0]] + s[1..];
    }
  }

  lemma CountsDistinct(s: seq<Voice>)
    requires forall v | v in s :: multiset(s)[v] == 1
    ensures Distinct(s)
  {
    forall i, j | 0 <= i < j < |s|
      ensures s[i] != s[j]
    {
      assert s == s[..j] + s[j..];
      assert multiset(s) == multiset(s[..j]) + multiset(s[j..]);
      assert s[..j][i] == s[i] && s[j..][0] == s[j];
      var v := s[i];
      assert v in multiset(s[..j]) && s[j] in multiset(s[j..]);
      assert multiset(s)[v] == multiset(s[..j])[v] + multiset(s[j..])[v];
      assert v in s;
    }
  }

  lemma PoolApart(l: Lists, voices: seq<Voice>, version: DriverVersion)
    requires Distinct(voices) && Complete(l, multiset(voices), version)
    ensures Apart(l, voices)
  {
    hide Paired;
    DistinctCounts(voices);
    if Pool(l) == multiset(voices) {
      forall v | v in l.free || v in VoicesOf(l.alloced)
        ensures v in voices && Pool(l)[v] == 1
      {
        assert v in Pool(l);
        assert v in multiset(voices);
      }
      CountsDistinct(l.free);
      CountsDistinct(VoicesOf(l.alloced));
      forall e | e in l.alloced
        ensures e.voice in voices && e.voice !in l.free
      {
        assert e.voice in VoicesOf(l.alloced) by {
          var i :| 0 <= i < |l.alloced| && l.alloced[i] == e;
          assert VoicesOf(l.alloced)[i] == e.voice;
        }
        assert Pool(l)[e.voice] == 1;
      }
    }
  }

  // Moves the entries after `index` of a list of n one place down.
  method RemoveAt(list: array<Voice>, index: nat, n: nat)
    requires index < n <= list.Length
    modifies list
    ensures list[..n - 1] == Without(old(list[..n]), index)
  {
    var i := index;
    while i < n - 1
      invariant index <= i <= n - 1
      invariant forall j | 0 <= j < i :: list[j] == old(list[if j < index then j else j + 1])
      invariant forall j | i <= j < list.Length :: list[j] == old(list[j])
    {
      list[i] := list[i + 1];
      i := i + 1;
    }
  }

  // Stores two lists, one after the other.
  method StoreBoth(list: array<Voice>, first: seq<Voice>, second: seq<Voice>)
    requires |first| + |second| <= list.Length
    modifies list
    ensures list[..|first| + |second|] == first + second
  {
    var i := 0;
    while i < |first|
      invariant 0 <= i <= |first| && list[..i] == first[..i]
    {
      list[i] := first[i];
      i := i + 1;
    }
    i := 0;
    while i < |second|
      invariant 0 <= i <= |second| && list[..|first|] == first
      invariant forall j | 0 <= j < i :: list[|first| + j] == second[j]
    {
      list[i + |first|] := second[i];
      i := i + 1;
    }
  }

  class Driver {
    const version: DriverVersion
    const opl3: bool
    const voices: seq<Voice>
    const freeList: array<Voice>      // voice_free_list
    const allocedList: array<Voice>   // voice_alloced_list
    var freeNum: nat
    var allocedNum: nat
    var bends: seq<int>               // of the channels
    ghost var lists: Lists

    // InitVoices
    constructor (version: DriverVersion, opl3: bool)
      ensures Valid() && lists == Lists(voices, []) && bends == seq(CHANNELS, _ => 0)
      ensures this.version == version && this.opl3 == opl3
      ensures |voices| == if opl3 then 2 * OPL_NUM_VOICES else OPL_NUM_VOICES
      ensures fresh(freeList) && fresh(allocedList) && forall v | v in voices :: fresh(v)
    {
      var n := if opl3 then 2 * OPL_NUM_VOICES else OPL_NUM_VOICES;
      var all: seq<Voice> := [];
      while |all| < n
        invariant |all| <= n && (forall v | v in all :: fresh(v) && v.channel == NO_CHANNEL && RightPriority(v))
        invariant Distinct(all)
      {
        var v := new Voice();
        all := all + [v];
      }
      this.version, this.opl3, voices := version, opl3, all;
      freeList := new Voice[2 * OPL_NUM_VOICES](i => if 0 <= i < n then all[i] else all[0]);
      allocedList := new Voice[2 * OPL_NUM_VOICES](_ => all[0]);
      freeNum, allocedNum, bends := n, 0, seq(CHANNELS, _ => 0);
      lists := Lists(all, []);
      new;
      assert freeList[..freeNum] == all;
      assert Pool(lists) == multiset(voices) && Paired([]);
    }

    // The arrays hold the lists.
    ghost predicate Stored()
      reads this`freeNum, this`allocedNum, this`lists, freeList, allocedList
    {
      && freeList != allocedList && freeList.Length == allocedList.Length == 2 * OPL_NUM_VOICES
      && freeNum <= 2 * OPL_NUM_VOICES && allocedNum <= 2 * OPL_NUM_VOICES
      && freeList[..freeNum] == lists.free && allocedList[..allocedNum] == VoicesOf(lists.alloced)
    }

    ghost predicate Kept()
      reads this`lists
    {
      && 2 < |voices| <= 2 * OPL_NUM_VOICES && Distinct(voices)
      && Complete(lists, multiset(voices), version) && Apart(lists, voices)
    }

    // The allocated voices are programmed, and in tune with their channels.
    ghost predicate Played()
      reads this`lists, this`bends, voices
    {
      && |bends| == CHANNELS
      && (forall e | e in lists.alloced :: e.voice in voices && 0 <= e.channel < CHANNELS
            && Programmed(e) && InTune(e, bends))
      && (forall v | v in lists.free :: v in voices && v.channel == NO_CHANNEL)
      && (forall v | v in voices :: RightPriority(v))
    }

    // This holds even while the parts of a note are taken in turn.
    ghost predicate Sound()
      reads this, freeList, allocedList, voices
    {
      Stored() && Kept() && Played()
    }

    ghost predicate Valid()
      reads this, freeList, allocedList, voices
    {
      Sound() && (version == Doom1 ==> Paired(lists.alloced))
    }

    lemma IsOk()
      requires Valid()
      ensures Ok(lists, multiset(voices), version)
    {
      hide Stored, Played, Complete, Paired;
    }

    lemma Sizes()
      requires Stored() && Kept()
      ensures freeNum == |lists.free| && allocedNum == |lists.alloced|
      ensures freeNum + allocedNum == |voices| || (version == Doom2 && freeNum == allocedNum == 0)
    {
      hide Paired, Pool, Apart;
      if Pool(lists) == multiset(voices) { PoolSize(lists, multiset(voices)); }
    }

    // The part of ReleaseVoice that frees one voice.
    method FreeOne(index: nat)
      requires Valid() && index < allocedNum && CanRelease(lists, index, version)
      modifies this`freeNum, this`allocedNum, this`lists, freeList, allocedList, voices
      ensures Valid() && lists == MovedToFree(old(lists), index)
    {
      hide Ok, Complete, Paired, CanRelease, Distinct, Pool, Apart, VoicesOf, InTune;
      IsOk();
      Sizes();
      FreeOneLists(index);
      var voice := allocedList[index];
      voice.channel := NO_CHANNEL;
      voice.note := 0;
      MoveToFree(index);
      lists := MovedToFree(lists, index);
    }

    // What it does to the arrays.
    method MoveToFree(index: nat)
      requires Stored() && freeNum == |lists.free| && index < allocedNum == |lists.alloced|
      requires freeNum < 2 * OPL_NUM_VOICES
      modifies this`freeNum, this`allocedNum, freeList, allocedList
      ensures freeNum == old(freeNum) + 1 && allocedNum == old(allocedNum) - 1
      ensures freeList[..freeNum] == MovedToFree(lists, index).free
      ensures allocedList[..allocedNum] == VoicesOf(MovedToFree(lists, index).alloced)
    {
      var voice := allocedList[index];
      assert voice == VoicesOf(lists.alloced)[index];
      RemoveAt(allocedList, index, allocedNum);
      allocedNum := allocedNum - 1;
      freeList[freeNum] := voice;
      freeNum := freeNum + 1;
      assert VoicesOf(Without(lists.alloced, index)) == Without(VoicesOf(lists.alloced), index);
    }

    lemma FreeOneLists(index: nat)
      requires Stored() && Kept() && index < allocedNum == |lists.alloced|
      requires Ok(lists, multiset(voices), version) && CanRelease(lists, index, version)
      ensures freeNum < 2 * OPL_NUM_VOICES && allocedList[index] == lists.alloced[index].voice
      ensures lists.alloced[index] in lists.alloced
      ensures var r := MovedToFree(lists, index);
        && Ok(r, multiset(voices), version) && Complete(r, multiset(voices), version) && Apart(r, voices)
        && (version == Doom1 ==> Paired(r.alloced))
        && (forall v | v in r.free :: v in lists.free || v == allocedList[index])
        && (forall e | e in r.alloced :: e in lists.alloced && e.voice != allocedList[index])
    {
      hide Paired, Pool, CanRelease;
      MovedOk(lists, index, multiset(voices), version);
      Sizes();
      var r := MovedToFree(lists, index);
      PoolApart(r, voices, version);
      assert VoicesOf(lists.alloced)[index] == allocedList[index];
      forall e | e in r.alloced
        ensures e in lists.alloced && e.voice != allocedList[index]
      {
        assert allocedList[index] in r.free;
      }
    }

    method ReleaseVoice(index: nat)
      requires Valid() && CanRelease(lists, index, version)
      modifies this`freeNum, this`allocedNum, this`lists, freeList, allocedList, voices
      ensures Valid() && lists == Released(old(lists), index, version)
      decreases allocedNum
    {
      hide Ok, Complete, Paired, CanRelease, Apart, Distinct, Without;
      Sizes();
      if index >= allocedNum {
        LoseAll(index);
        return;
      }
      var voice := allocedList[index];
      assert voice == lists.alloced[index].voice && lists.alloced[index] in lists.alloced;
      var doubleVoice := voice.loaded.Loaded? && voice.loaded.second;
      IsOk();
      MovedOk(lists, index, multiset(voices), version);
      FreeOne(index);
      if doubleVoice && version != Doom19 {
        Sizes();
        ReleaseVoice(index);
      }
    }

    // What the second driver does when there is no voice at the index.
    method LoseAll(index: nat)
      requires Valid() && CanRelease(lists, index, version) && index >= |lists.alloced|
      modifies this`freeNum, this`allocedNum, this`lists
      ensures Valid() && lists == NONE
    {
      CrashOk(lists, index, multiset(voices), version);
      allocedNum := 0;
      freeNum := 0;
      lists := NONE;
    }

    // KeyOffEvent, and AllNotesOff with any key.
    method NotesOff(channel: nat, key: KeyChoice)
      requires Valid()
      modifies this`freeNum, this`allocedNum, this`lists, freeList, allocedList, voices
      ensures Valid() && lists == SwitchedOff(old(lists), 0, channel, key, version)
    {
      hide Ok, Complete, Paired, CanRelease, Released, Plays, Stored, Kept, Played;
      var i: nat := 0;
      Counts();
      while i < allocedNum
        invariant Valid() && allocedNum == |lists.alloced| && QuietBefore(lists, i, channel, key)
        invariant SwitchedOff(old(lists), 0, channel, key, version) == SwitchedOff(lists, i, channel, key, version)
        decreases allocedNum - i
      {
        i := OffAt(i, channel, key);
      }
    }

    lemma Counts()
      requires Valid()
      ensures allocedNum == |lists.alloced| && freeNum == |lists.free|
    {
      Sizes();
    }

    // Its loop body.
    method OffAt(i: nat, channel: nat, key: KeyChoice) returns (next: nat)
      requires Valid() && i < allocedNum == |lists.alloced| && QuietBefore(lists, i, channel, key)
      modifies this`freeNum, this`allocedNum, this`lists, freeList, allocedList, voices
      ensures Valid() && allocedNum == |lists.alloced| && QuietBefore(lists, next, channel, key)
      ensures SwitchedOff(old(lists), i, channel, key, version) == SwitchedOff(lists, next, channel, key, version)
      ensures allocedNum - next < old(allocedNum) - i
    {
      hide Paired, CanRelease, Released, Apart, Distinct, Pool;
      ghost var was := lists;
      var voice := allocedList[i];
      assert voice == lists.alloced[i].voice && lists.alloced[i] in lists.alloced;
      if voice.channel == channel && (key.AnyKey? || voice.key == key.key) {
        assert version == Doom1 ==> Paired(lists.alloced);
        QuietCanRelease(lists, i, channel, key, version);
        QuietAfterRelease(lists, i, channel, key, version);
        ReleasedShrinks(lists, i, version);
        ReleaseVoice(i);
        Sizes();
        next := i;
      } else {
        next := i + 1;
      }
    }

    // GetFreeVoice: the voice that has been free for longest moves to the end of the other array.
    method GetFreeVoice() returns (voice: Voice?)
      requires Stored() && Kept()
      modifies this`freeNum, this`allocedNum, freeList, allocedList
      ensures voice == null <==> lists.free == []
      ensures voice == null ==> Stored()
      ensures voice != null ==>
        && voice == lists.free[0] && freeNum == old(freeNum) - 1 && allocedNum == old(allocedNum) + 1
        && freeNum + allocedNum <= 2 * OPL_NUM_VOICES
        && freeList[..freeNum] == lists.free[1..] && allocedList[..allocedNum] == VoicesOf(lists.alloced) + [voice]
    {
      hide Complete, Apart, Distinct, VoicesOf;
      Sizes();
      if freeNum == 0 {
        return null;
      }
      voice := freeList[0];
      assert voice == freeList[..freeNum][0];
      RemoveAt(freeList, 0, freeNum);
      freeNum := freeNum - 1;
      allocedList[allocedNum] := voice;
      allocedNum := allocedNum + 1;
    }

    // UpdateVoiceFrequency
    method UpdateVoiceFrequency(voice: Voice, ghost e: Entry)
      requires |bends| == CHANNELS && 0 <= e.channel < CHANNELS && voice == e.voice && Programmed(e)
      modifies voice`freq
      ensures InTune(e, bends)
    {
      var instrument := voice.loaded.instrument;
      var part := if voice.loaded.second then instrument.parts.1 else instrument.parts.0;
      var p := FrequencyForVoice(voice.note, instrument.fixedNote >= 0, part.noteOffset, bends[voice.channel],
                                 voice.loaded.second, instrument.fineTuning);
      if voice.freq != On(p) {
        voice.freq := On(p);
      }
    }

    // Programs a voice for a part of an instrument.
    method Program(voice: Voice, channel: nat, key: int, note: int, instrument: Instrument, second: bool)
        returns (ghost e: Entry)
      requires |bends| == CHANNELS && channel < CHANNELS
      requires RightPriority(voice)
      modifies voice
      ensures e == Entry(voice, channel, key, if instrument.fixedNote >= 0 then instrument.fixedNote else note,
                         instrument, second)
      ensures Programmed(e) && InTune(e, bends) && RightPriority(voice)
    {
      voice.channel := channel;
      voice.key := key;
      voice.note := if instrument.fixedNote >= 0 then instrument.fixedNote else note;
      if voice.loaded != Loaded(instrument, second) {
        voice.loaded := Loaded(instrument, second);
        voice.priority := if second then instrument.parts.1.priority else instrument.parts.0.priority;
      }
      e := Entry(voice, channel, key, voice.note, instrument, second);
      voice.freq := Off;
      UpdateVoiceFrequency(voice, e);
    }

    // VoiceKeyOn: takes a free voice, if there is one, for a part of an instrument.
    method VoiceKeyOn(channel: nat, key: int, note: int, instrument: Instrument, part: bool)
      requires Sound() && channel < CHANNELS
      modifies this`freeNum, this`allocedNum, this`lists, freeList, allocedList, voices
      ensures Sound()
      ensures lists == KeyedOn(old(lists), channel, key, note, instrument, part && HasSeconds(version, opl3))
    {
      hide Complete, Paired, Distinct, Pool, InTune, Programmed, RightPriority, Apart, VoicesOf;
      var second := part && HasSeconds(version, opl3);
      ghost var was := lists;
      KeyedOnLists(channel, key, note, instrument, second);
      var voice := GetFreeVoice();
      if voice == null {
        return;
      }
      ghost var e := ProgramFree(voice, channel, key, note, instrument, second);
      VoicesAppend(was.alloced, e);
    }

    // Programs the first of the free voices, which joins the allocated ones.
    method ProgramFree(voice: Voice, channel: nat, key: int, note: int, instrument: Instrument, second: bool)
        returns (ghost e: Entry)
      requires Played() && channel < CHANNELS && lists.free != [] && voice == lists.free[0]
      requires forall d | d in lists.alloced :: d.voice != voice
      requires forall v | v in lists.free[1..] :: v != voice
      modifies voice, this`lists
      ensures Played() && lists == KeyedOn(old(lists), channel, key, note, instrument, second)
      ensures lists == Lists(old(lists).free[1..], old(lists).alloced + [e]) && e.voice == voice
    {
      hide InTune, Programmed, RightPriority;
      assert voice in lists.free;
      e := Program(voice, channel, key, note, instrument, second);
      ghost var was := lists;
      lists := KeyedOn(lists, channel, key, note, instrument, second);
      assert forall d | d in lists.alloced :: d == e || d in was.alloced;
      assert forall v | v in lists.free :: v in was.free;
    }

    lemma KeyedOnLists(channel: nat, key: int, note: int, instrument: Instrument, second: bool)
      requires Sound()
      ensures var r := KeyedOn(lists, channel, key, note, instrument, second);
        && Complete(r, multiset(voices), version) && Apart(r, voices)
      ensures lists.free != [] ==>
        && lists.free[0] in voices && RightPriority(lists.free[0])
        && (forall e | e in lists.alloced :: e.voice != lists.free[0])
        && (forall v | v in lists.free[1..] :: v != lists.free[0])
    {
      hide Paired, InTune, Programmed, RightPriority, Pool;
      KeyedOnPool(lists, channel, key, note, instrument, second);
      PoolApart(KeyedOn(lists, channel, key, note, instrument, second), voices, version);
      if lists.free != [] {
        assert lists.free[0] in lists.free;
      }
    }

    // The search of ReplaceExistingVoice.
    method VictimOf19() returns (result: nat)
      requires Valid() && allocedNum > 0
      ensures result == Victim19(lists.alloced, |lists.alloced|)
    {
      hide Stored, Kept, Played, Paired;
      Numbers();
      result := 0;
      var i := 0;
      while i < allocedNum
        invariant 0 <= i <= allocedNum && result < allocedNum && result == Victim19(lists.alloced, i)
      {
        At(i);
        At(result);
        if allocedList[i].loaded.second || allocedList[i].channel >= allocedList[result].channel {
          result := i;
        }
        i := i + 1;
      }
    }

    lemma At(i: nat)
      requires Valid() && i < |lists.alloced|
      ensures i < allocedNum == |lists.alloced| && allocedNum <= allocedList.Length
      ensures allocedList[i] == lists.alloced[i].voice && allocedList[i] in voices && Programmed(lists.alloced[i])
    {
      hide Kept, Paired;
      assert allocedList[i] == VoicesOf(lists.alloced)[i];
      assert lists.alloced[i] in lists.alloced;
    }

    // The search of ReplaceExistingVoiceDoom1.
    method VictimOfDoom1() returns (result: nat)
      requires Valid() && allocedNum > 0
      ensures result == VictimDoom1(lists.alloced, |lists.alloced|)
    {
      hide Stored, Kept, Played, Paired;
      Numbers();
      result := 0;
      var i := 0;
      while i < allocedNum
        invariant 0 <= i <= allocedNum && result < allocedNum && result == VictimDoom1(lists.alloced, i)
      {
        At(i);
        At(result);
        if allocedList[i].channel > allocedList[result].channel {
          result := i;
        }
        i := i + 1;
      }
    }

    // The search of ReplaceExistingVoiceDoom2.
    method VictimOfDoom2(channel: nat) returns (result: nat)
      requires Valid() && allocedNum > 0
      ensures result == VictimDoom2(lists.alloced, channel)
    {
      hide Stored, Kept, Played, Paired, Priority;
      Numbers();
      result := 0;
      var priority := 0x8000;
      var i := 0;
      while i < allocedNum - 3
        invariant 0 <= i && (i <= allocedNum - 3 || i == 0)
        invariant (priority, result) == SearchDoom2(lists.alloced, i, channel)
      {
        At(i);
        if allocedList[i].priority < priority && allocedList[i].channel >= channel {
          priority := allocedList[i].priority;
          result := i;
        }
        i := i + 1;
      }
    }

    // ReplaceExistingVoice
    method ReplaceExistingVoice()
      requires Valid() && version == Doom19 && allocedNum > 0
      modifies this`freeNum, this`allocedNum, this`lists, freeList, allocedList, voices
      ensures Valid()
      ensures lists == Released(old(lists), Victim19(old(lists).alloced, |old(lists).alloced|), Doom19)
    {
      hide Ok, Complete, Paired, Apart, Distinct, Pool, Released;
      Sizes();
      var result := VictimOf19();
      CanRelease19(lists, result);
      ReleaseVoice(result);
    }

    // ReplaceExistingVoiceDoom1
    method ReplaceExistingVoiceDoom1()
      requires Valid() && version == Doom1 && allocedNum > 0
      modifies this`freeNum, this`allocedNum, this`lists, freeList, allocedList, voices
      ensures Valid() && |lists.alloced| < |old(lists).alloced|
      ensures lists == Released(old(lists), VictimDoom1(old(lists).alloced, |old(lists).alloced|), Doom1)
    {
      hide Ok, Complete, Paired, CanRelease, Apart, Distinct, Pool, Released;
      Sizes();
      var result := VictimOfDoom1();
      IsOk();
      VictimOk(lists, multiset(voices));
      ReleasedShrinks(lists, result, Doom1);
      ReleaseVoice(result);
    }

    // ReplaceExistingVoiceDoom2
    method ReplaceExistingVoiceDoom2(channel: nat)
      requires Valid() && version == Doom2 && allocedNum > 0
      modifies this`freeNum, this`allocedNum, this`lists, freeList, allocedList, voices
      ensures Valid() && lists == ReplacedDoom2(old(lists), channel)
    {
      hide Ok, Complete, Paired, Apart, Distinct, Pool, Released;
      var result := VictimOfDoom2(channel);
      ReleaseVoice(result);
    }

    // The part of KeyOnEvent that makes room for a note.
    method MakeRoom(channel: nat, double: bool)
      requires Valid()
      modifies this`freeNum, this`allocedNum, this`lists, freeList, allocedList, voices
      ensures Valid() && lists == Room(old(lists), channel, double, version, opl3, |voices|)
    {
      hide Ok, Complete, Paired, Released, ReplacedDoom2, Stored, Kept, Played, Cut;
      Numbers();
      match version {
        case Doom1 =>
          MakeRoomDoom1(if opl3 && double then 2 else 1);
        case Doom2 =>
          if allocedNum == |voices| {
            ReplaceExistingVoiceDoom2(channel);
            Numbers();
          }
          if allocedNum == |voices| - 1 && double {
            ReplaceExistingVoiceDoom2(channel);
          }
        case Doom19 =>
          if freeNum == 0 {
            ReplaceExistingVoice();
          }
      }
    }

    lemma Numbers()
      requires Valid()
      ensures allocedNum == |lists.alloced| && freeNum == |lists.free| && |voices| > 2
      ensures allocedNum <= allocedList.Length && freeNum <= freeList.Length
      ensures version == Doom19 && freeNum == 0 ==> allocedNum > 0
    {
      Sizes();
    }

    method MakeRoomDoom1(voiceNum: nat)
      requires Valid() && version == Doom1 && 1 <= voiceNum <= 2 < |voices|
      modifies this`freeNum, this`allocedNum, this`lists, freeList, allocedList, voices
      ensures Valid() && lists == Cut(old(lists), |voices| - voiceNum)
    {
      hide Ok, Complete, Paired, Released, Stored, Kept, Played;
      Numbers();
      while allocedNum > |voices| - voiceNum
        invariant Valid() && allocedNum == |lists.alloced|
        invariant Cut(old(lists), |voices| - voiceNum) == Cut(lists, |voices| - voiceNum)
        decreases |lists.alloced|
      {
        ReplaceExistingVoiceDoom1();
        Numbers();
      }
    }

    // The rest of KeyOnEvent.
    method StartNote(channel: nat, key: int, note: int, instrument: Instrument)
      requires Valid() && channel < CHANNELS
      requires |lists.free| >= Wanted(instrument.double, version, opl3) || (version == Doom2 && lists == NONE)
      modifies this`freeNum, this`allocedNum, this`lists, freeList, allocedList, voices
      ensures Valid() && lists == Started(old(lists), channel, key, note, instrument, version, opl3)
    {
      hide KeyedOn, Stored, Kept, Played, Paired;
      StartedLists(channel, key, note, instrument);
      match version {
        case Doom19 =>
          VoiceKeyOn(channel, key, note, instrument, false);
          if instrument.double {
            VoiceKeyOn(channel, key, note, instrument, true);
          }
        case _ =>
          if instrument.double {
            VoiceKeyOn(channel, key, note, instrument, true);
          }
          VoiceKeyOn(channel, key, note, instrument, false);
      }
    }

    lemma StartedLists(channel: nat, key: int, note: int, instrument: Instrument)
      requires Valid()
      requires |lists.free| >= Wanted(instrument.double, version, opl3) || (version == Doom2 && lists == NONE)
      ensures version == Doom1 ==> Paired(Started(lists, channel, key, note, instrument, version, opl3).alloced)
    {
      hide Complete, Paired, Stored, Played;
      StartedOk(lists, channel, key, note, instrument, version, opl3, multiset(voices));
    }

    // KeyOnEvent; a volume of zero is a key-off, and the percussion channel takes its instrument
    // from the key.
    method KeyOnEvent(channelNum: nat, key: int, volume: nat, instrument: Instrument, percussion: seq<Instrument>)
      requires Valid() && channelNum < 16 && |percussion| == 47
      modifies this`freeNum, this`allocedNum, this`lists, freeList, allocedList, voices
      ensures Valid() && |voices| > 2
      ensures lists ==
        if volume == 0 then
          Step(old(lists), Event.NotesOff(TrackChannel(channelNum), Key(key)), version, opl3, |voices|)
        else if channelNum != 9 then
          Step(old(lists), NoteOn(TrackChannel(channelNum), key, key, instrument), version, opl3, |voices|)
        else if 35 <= key <= 81 then
          Step(old(lists), NoteOn(15, key, 60, percussion[key - 35]), version, opl3, |voices|)
        else old(lists)
    {
      hide Ok, Complete, Paired, Released, SwitchedOff, Room, Started, Stored, Kept, Played;
      Numbers();
      if volume == 0 {
        NotesOff(TrackChannel(channelNum), Key(key));
        return;
      }
      var i, note := instrument, key;
      if channelNum == 9 {
        if key < 35 || key > 81 {
          return;
        }
        i, note := percussion[key - 35], 60;
      }
      HasRoom(TrackChannel(channelNum), i.double);
      MakeRoom(TrackChannel(channelNum), i.double);
      StartNote(TrackChannel(channelNum), key, note, i);
    }

    lemma HasRoom(channel: nat, double: bool)
      requires Valid() && |voices| > 2
      ensures var r := Room(lists, channel, double, version, opl3, |voices|);
        |r.free| >= Wanted(double, version, opl3) || (version == Doom2 && r == NONE)
    {
      hide Ok, Complete, Room;
      assert |multiset(voices)| == |voices|;
      IsOk();
      RoomOk(lists, channel, double, version, opl3, multiset(voices));
    }

    // The first n entries of the channel, and all of the other channels, are in tune.
    ghost predicate TunedUpTo(n: nat, channel: nat)
      reads this`lists, this`bends, voices
    {
      && |bends| == CHANNELS
      && (forall e | e in lists.alloced :: e.voice in voices && 0 <= e.channel < CHANNELS && Programmed(e))
      && (forall i | 0 <= i < |lists.alloced| && (i < n || lists.alloced[i].channel != channel) ::
            InTune(lists.alloced[i], bends))
    }

    // One step of the loop of PitchBendEvent.
    method BendOne(i: nat, channel: nat) returns (own: bool)
      requires Stored() && Kept() && i < allocedNum == |lists.alloced| && TunedUpTo(i, channel)
      modifies voices`freq
      ensures TunedUpTo(i + 1, channel) && own == Plays(lists.alloced[i], channel, AnyKey)
    {
      hide Complete, Distinct, Tuned, InTune;
      ghost var e := lists.alloced[i];
      var voice := allocedList[i];
      assert voice == VoicesOf(lists.alloced)[i] == e.voice && e in lists.alloced;
      own := voice.channel == channel;
      if own {
        OtherVoices(i);
        UpdateVoiceFrequency(voice, e);
        assert forall j | 0 <= j < |lists.alloced| && j != i && (j < i || lists.alloced[j].channel != channel) ::
          InTune(lists.alloced[j], bends);
      }
    }

    lemma OtherVoices(i: nat)
      requires Kept() && i < |lists.alloced|
      ensures forall j | 0 <= j < |lists.alloced| && j != i :: lists.alloced[j].voice != lists.alloced[i].voice
    {
      hide Complete;
      var s := VoicesOf(lists.alloced);
      forall j | 0 <= j < |s| && j != i
        ensures lists.alloced[j].voice != lists.alloced[i].voice
      {
        assert s[j] == lists.alloced[j].voice && s[i] == lists.alloced[i].voice;
      }
    }

    // The loop of PitchBendEvent over the allocated voices: those of the channel and the others.
    method BendAll(channel: nat) returns (updated: seq<Voice>, notUpdated: seq<Voice>)
      requires Stored() && Kept() && TunedUpTo(0, channel)
      modifies voices`freq
      ensures TunedUpTo(|lists.alloced|, channel)
      ensures updated == VoicesOf(Select(lists.alloced, channel, AnyKey, true))
      ensures notUpdated == VoicesOf(Select(lists.alloced, channel, AnyKey, false))
    {
      hide Complete, Distinct, Tuned, InTune, Apart, Select, Programmed, Driver.TunedUpTo, Plays, VoicesOf;
      Sizes();
      updated, notUpdated := [], [];
      var i := 0;
      ghost var s := lists.alloced;
      SelectEmpty(s, channel);
      while i < allocedNum
        invariant 0 <= i <= allocedNum && TunedUpTo(i, channel)
        invariant updated == VoicesOf(Select(s[..i], channel, AnyKey, true))
        invariant notUpdated == VoicesOf(Select(s[..i], channel, AnyKey, false))
      {
        var own := BendOne(i, channel);
        SelectNext(s, i, channel);
        assert allocedList[i] == VoicesOf(s)[i];
        if own {
          updated := updated + [allocedList[i]];
        } else {
          notUpdated := notUpdated + [allocedList[i]];
        }
        i := i + 1;
      }
      assert s[..i] == s;
    }

    // PitchBendEvent: the channel is bent and its voices are tuned to it, and they go behind the
    // others.
    method PitchBendEvent(channelNum: nat, param2: nat)
      requires Valid() && channelNum < 16
      modifies this`bends, this`lists, allocedList, voices`freq
      ensures Valid() && |voices| > 2
      ensures bends == old(bends)[TrackChannel(channelNum) := param2 - 64]
      ensures lists == Step(old(lists), Bend(TrackChannel(channelNum), param2 - 64), version, opl3, |voices|)
    {
      hide Complete, Distinct, Tuned, Apart, Bent, Programmed, Paired, InTune, Driver.Stored, Driver.TunedUpTo;
      var channel := TrackChannel(channelNum);
      Numbers();
      BentLists(channel);
      OthersTuned(channel, param2 - 64);
      bends := bends[channel := param2 - 64];
      TunedStart(channel);
      MoveBent(channel);
    }

    // The part of it that visits the voices.
    method MoveBent(channel: nat)
      requires Stored() && Kept() && TunedUpTo(0, channel)
      modifies this`lists, allocedList, voices`freq
      ensures Stored() && lists == Bent(old(lists), channel) && lists.free == old(lists).free && |bends| == CHANNELS
      ensures forall e | e in lists.alloced ::
        e.voice in voices && 0 <= e.channel < CHANNELS && Programmed(e) && InTune(e, bends)
    {
      hide Complete, Distinct, Apart, Bent, Programmed, VoicesOf, InTune, Driver.TunedUpTo, Select;
      Sizes();
      var updated, notUpdated := BendAll(channel);
      StoreBent(channel, updated, notUpdated);
      AllTuned(channel);
      lists := Bent(lists, channel);
    }

    // Its last two loops.
    method StoreBent(channel: nat, updated: seq<Voice>, notUpdated: seq<Voice>)
      requires Stored() && allocedNum == |lists.alloced|
      requires updated == VoicesOf(Select(lists.alloced, channel, AnyKey, true))
      requires notUpdated == VoicesOf(Select(lists.alloced, channel, AnyKey, false))
      modifies allocedList
      ensures var r := Bent(lists, channel);
        r.free == lists.free && |r.alloced| == allocedNum && allocedList[..allocedNum] == VoicesOf(r.alloced)
    {
      hide Select, Bent;
      BentEntries(lists, channel);
      StoreBoth(allocedList, notUpdated, updated);
    }

    lemma OthersTuned(channel: nat, bend: int)
      requires Valid() && channel < CHANNELS
      ensures |bends| == CHANNELS && forall e | e in lists.alloced ::
        && e.voice in voices && 0 <= e.channel < CHANNELS && Programmed(e)
        && (e.channel != channel ==> InTune(e, bends[channel := bend]))
    {
      hide Tuned, Programmed, Kept, Stored, Paired;
    }

    lemma TunedStart(channel: nat)
      requires |bends| == CHANNELS && forall e | e in lists.alloced ::
        && e.voice in voices && 0 <= e.channel < CHANNELS && Programmed(e)
        && (e.channel != channel ==> InTune(e, bends))
      ensures TunedUpTo(0, channel)
    {
      hide InTune, Programmed;
    }

    // Once the loop is done, every entry is in tune, in whatever order.
    lemma AllTuned(channel: nat)
      requires TunedUpTo(|lists.alloced|, channel)
      ensures |bends| == CHANNELS
      ensures forall e | e in Bent(lists, channel).alloced ::
        e.voice in voices && 0 <= e.channel < CHANNELS && Programmed(e) && InTune(e, bends)
    {
      hide InTune, Programmed, Bent;
      BentEntries(lists, channel);
    }

    lemma BentLists(channel: nat)
      requires Valid()
      ensures var r := Bent(lists, channel);
        && Complete(r, multiset(voices), version) && Apart(r, voices) && (version == Doom1 ==> Paired(r.alloced))
    {
      hide Stored, Played, Paired, Complete, Apart, Bent;
      IsOk();
      BentOk(lists, channel, multiset(voices), version);
      PoolApart(Bent(lists, channel), voices, version);
    }
  }

  lemma BentEntries(l: Lists, channel: int)
    ensures var r := Bent(l, channel);
      && r.free == l.free && |r.alloced| == |l.alloced| && (forall e | e in r.alloced :: e in l.alloced)
      && VoicesOf(r.alloced) == VoicesOf(Select(l.alloced, channel, AnyKey, false))
                                + VoicesOf(Select(l.alloced, channel, AnyKey, true))
  {
    hide Plays;
    var r := Bent(l, channel);
    SelectCounts(l.alloced, channel, AnyKey);
    assert multiset(r.alloced) == multiset(l.alloced);
    forall e | e in r.alloced
      ensures e in l.alloced
    {
      assert e in multiset(r.alloced);
    }
  }

  lemma SelectEmpty(s: seq<Entry>, channel: int)
    ensures VoicesOf(Select(s[..0], channel, AnyKey, true)) == []
    ensures VoicesOf(Select(s[..0], channel, AnyKey, false)) == []
  {}

  lemma {:induction false} SelectAppend(s: seq<Entry>, e: Entry, channel: int, inside: bool)
    ensures Select(s + [e], channel, AnyKey, inside)
      == Select(s, channel, AnyKey, inside) + (if Plays(e, channel, AnyKey) == inside then [e] else [])
  {
    hide Plays;
    if s == [] {
      assert s + [e] == [e];
    } else {
      assert (s + [e])[1..] == s[1..] + [e];
      SelectAppend(s[1..], e, channel, inside);
    }
  }

  lemma SelectNext(s: seq<Entry>, i: nat, channel: int)
    requires i < |s|
    ensures VoicesOf(Select(s[..i + 1], channel, AnyKey, true))
      == VoicesOf(Select(s[..i], channel, AnyKey, true))
         + (if Plays(s[i], channel, AnyKey) then [s[i].voice] else [])
    ensures VoicesOf(Select(s[..i + 1], channel, AnyKey, false))
      == VoicesOf(Select(s[..i], channel, AnyKey, false))
         + (if Plays(s[i], channel, AnyKey) then [] else [s[i].voice])
  {
    hide Plays, Select;
    assert s[..i + 1] == s[..i] + [s[i]];
    SelectAppend(s[..i], s[i], channel, true);
    SelectAppend(s[..i], s[i], channel, false);
  }
}
