// i_winmusic.c: what a song sounds like when it is played again and again, from its start or from
// the loop point of RPG Maker.
module WinMidiRounds {
  import opened WinMidiEvents
  import opened WinMidiMerge

  const UINT_MAX: nat := 0xffff_ffff

  function EventOf(song: Song, h: Handled): Event
    requires InSong(song, h)
  {
    song[h.track][h.index].event
  }

  // ---------- The loop point of RPG Maker ----------

  function Exclusions(events: seq<Timed>): nat {
    if events == [] then 0
    else Exclusions(events[..|events| - 1]) + (if IsExclusion(events[|events| - 1].event) then 1 else 0)
  }

  function OtherEMIDI(events: seq<Timed>): nat {
    if events == [] then 0
    else OtherEMIDI(events[..|events| - 1]) + (if IsOtherEMIDI(events[|events| - 1].event) then 1 else 0)
  }

  function AllExclusions(song: Song): nat {
    if song == [] then 0 else AllExclusions(song[..|song| - 1]) + Exclusions(song[|song| - 1])
  }

  function AllOtherEMIDI(song: Song): nat {
    if song == [] then 0 else AllOtherEMIDI(song[..|song| - 1]) + OtherEMIDI(song[|song| - 1])
  }

  // The controller that EMIDI calls a track exclusion is a loop point if it is there once and EMIDI
  // is not used otherwise.
  predicate IsRpgLoop(song: Song) {
    AllExclusions(song) == 1 && AllOtherEMIDI(song) == 0
  }

  // IsRPGLoop
  method CheckRpgLoop(song: Song) returns (rpgLoop: bool)
    ensures rpgLoop == IsRpgLoop(song)
  {
    hide IsExclusion, IsOtherEMIDI;
    var rpgEvents, emidiEvents, i := 0, 0, 0;
    while i < |song|
      invariant 0 <= i <= |song|
      invariant rpgEvents == AllExclusions(song[..i]) && emidiEvents == AllOtherEMIDI(song[..i])
    {
      var r, e := CountTrack(song[i]);
      assert song[..i + 1][..i] == song[..i];
      rpgEvents, emidiEvents, i := rpgEvents + r, emidiEvents + e, i + 1;
    }
    assert song[..i] == song;
    rpgLoop := rpgEvents == 1 && emidiEvents == 0;
  }

  // Its inner loop.
  method CountTrack(events: seq<Timed>) returns (rpgEvents: nat, emidiEvents: nat)
    ensures rpgEvents == Exclusions(events) && emidiEvents == OtherEMIDI(events)
  {
    rpgEvents, emidiEvents := 0, 0;
    var k := 0;
    while k < |events|
      invariant 0 <= k <= |events|
      invariant rpgEvents == Exclusions(events[..k]) && emidiEvents == OtherEMIDI(events[..k])
    {
      var event := events[k].event;
      assert events[..k + 1][..k] == events[..k];
      if event.Channel? && event.status == CONTROLLER {
        if event.param1 == 0x6f {
          rpgEvents := rpgEvents + 1;
        } else if event.param1 == 0x6e || event.param1 == 0x70 || event.param1 == 0x71
                  || IsLoopController(event.param1) {
          emidiEvents := emidiEvents + 1;
        }
      }
      k := k + 1;
    }
    assert events[..k] == events;
  }

  // No track can be taken away from this device.
  ghost predicate NoDesignation(song: Song) {
    forall h | InSong(song, h) :: !Designates(EventOf(song, h), IsRpgLoop(song))
  }

  lemma {:induction false} NoneCounted(events: seq<Timed>, k: nat)
    requires OtherEMIDI(events) == 0 && k < |events|
    ensures !IsOtherEMIDI(events[k].event)
  {
    hide IsOtherEMIDI;
    if k < |events| - 1 { NoneCounted(events[..|events| - 1], k); }
  }

  lemma {:induction false} NoneCountedAt(song: Song, i: nat)
    requires AllOtherEMIDI(song) == 0 && i < |song|
    ensures OtherEMIDI(song[i]) == 0
  {
    if i < |song| - 1 { NoneCountedAt(song[..|song| - 1], i); }
  }

  lemma RpgHasNoDesignation(song: Song)
    requires IsRpgLoop(song)
    ensures NoDesignation(song)
  {
    hide IsRpgLoop;
    forall h | InSong(song, h)
      ensures !Designates(EventOf(song, h), IsRpgLoop(song))
    {
      NoneCountedAt(song, h.track) by { RpgCounts(song); }
      NoneCounted(song[h.track], h.index);
    }
  }

  lemma RpgCounts(song: Song)
    requires IsRpgLoop(song)
    ensures AllOtherEMIDI(song) == 0
  {}

  // Every track ends as the format of MIDI files asks for.
  ghost predicate EveryTrackEnds(song: Song) {
    forall i | 0 <= i < |song| :: song[i] != [] && IsEnd(song[i][|song[i]| - 1].event)
  }

  // A song without the loop points that are not modelled, whose ticks fit an unsigned int.
  ghost predicate Playable(song: Song, level: Level) {
    && (IsRpgLoop(song) ==> EveryTrackEnds(song))
    && forall i | 0 <= i < |song| ::
      && Elapsed(song[i], |song[i]|) < UINT_MAX
      && forall k | 0 <= k < |song[i]| ::
           WellFormed(song[i][k].event) && (level != Vanilla ==> !IsLoopPoint(song[i][k].event))
  }

  lemma PlayableEvent(song: Song, level: Level, h: Handled)
    requires Playable(song, level) && InSong(song, h)
    ensures WellFormed(EventOf(song, h)) && (level != Vanilla ==> !IsLoopPoint(EventOf(song, h)))
  {}

  // What was played up to the loop point, if it was.
  function LoopPrefix(song: Song, handled: seq<Handled>): (prefix: seq<Handled>)
    ensures prefix <= handled
  {
    if handled == [] then [] else
      var last := handled[|handled| - 1];
      if InSong(song, last) && IsExclusion(EventOf(song, last)) then handled
      else LoopPrefix(song, handled[..|handled| - 1])
  }

  lemma LoopPrefixAppend(song: Song, handled: seq<Handled>, h: Handled)
    requires InSong(song, h)
    ensures LoopPrefix(song, handled + [h])
      == if IsExclusion(EventOf(song, h)) then handled + [h] else LoopPrefix(song, handled)
  {
    assert (handled + [h])[..|handled|] == handled;
  }

  lemma {:induction false} LoopPrefixAgain(song: Song, handled: seq<Handled>)
    ensures LoopPrefix(song, LoopPrefix(song, handled)) == LoopPrefix(song, handled)
  {
    if handled != [] { LoopPrefixAgain(song, handled[..|handled| - 1]); }
  }

  // Where the rounds after the first one start.
  function LoopFrom(song: Song, handled: seq<Handled>, loops: bool): (from: nat)
    ensures from <= |handled|
  {
    if loops then |LoopPrefix(song, handled)| else 0
  }

  // What comes last in a merge is the end of a track, and not the loop point.
  lemma MergeEndsWithEnd(song: Song, merge: seq<Handled>)
    requires IsStableMerge(song, merge) && EveryTrackEnds(song) && merge != []
    ensures |LoopPrefix(song, merge)| < |merge|
  {
    hide Elapsed, Heard;
    var n := |merge| - 1;
    var last := merge[n];
    assert last in merge && last.index == Count(merge[..n], last.track);
    HeardToTheEnd(song[last.track]);
    assert IsEnd(EventOf(song, last));
  }

  lemma HeardToTheEnd(events: seq<Timed>)
    requires events != [] && IsEnd(events[|events| - 1].event)
    ensures 0 < Heard(events) <= |events| && IsEnd(events[Heard(events) - 1].event)
  {}

  // ---------- What a song sounds like ----------

  // The tick of the last event.
  function Length(song: Song, handled: seq<Handled>): nat {
    if handled != [] && InSong(song, handled[|handled| - 1]) then Time(song, handled[|handled| - 1]) else 0
  }

  // The notes of the events of a round, each at its own tick; `audible` says which of them were
  // not for another device.
  function RoundNotes(song: Song, handled: seq<Handled>, audible: seq<bool>, base: int): seq<Note>
    requires |handled| == |audible|
  {
    if handled == [] then [] else
      var n := |handled| - 1;
      RoundNotes(song, handled[..n], audible[..n], base)
      + (if audible[n] && InSong(song, handled[n])
         then NotesOf(EventOf(song, handled[n]), base + Time(song, handled[n])) else [])
  }

  lemma RoundNotesAppend(song: Song, handled: seq<Handled>, audible: seq<bool>, base: int, h: Handled, heard: bool)
    requires |handled| == |audible| && InSong(song, h)
    ensures RoundNotes(song, handled + [h], audible + [heard], base) ==
            RoundNotes(song, handled, audible, base)
            + (if heard then NotesOf(EventOf(song, h), base + Time(song, h)) else [])
  {
    assert (handled + [h])[..|handled|] == handled && (audible + [heard])[..|handled|] == audible;
  }

  lemma NoNotes(song: Song, base: int)
    ensures RoundNotes(song, [], [], base) == []
  {}

  function AllAudible(n: nat): (a: seq<bool>)
    ensures |a| == n
  {
    seq(n, _ => true)
  }

  // A complete round: what was played at its end, how much of that was played before it, and the
  // tick of the stream that was tick 0 of the song.
  datatype Round = Round(handled: seq<Handled>, from: nat, base: int)

  function NotesOfRound(song: Song, r: Round): seq<Note>
    requires r.from <= |r.handled|
  {
    RoundNotes(song, r.handled[r.from..], AllAudible(|r.handled| - r.from), r.base)
  }

  // A round follows the one before it without a gap, and starts at the start of the song or at its
  // loop point.
  ghost predicate Linked(song: Song, rounds: seq<Round>, from: nat, base: int, loops: bool) {
    if rounds == [] then from == 0 && base == 0
    else
      var last := rounds[|rounds| - 1];
      && from == LoopFrom(song, last.handled, loops)
      && base == last.base + Length(song, last.handled) - Length(song, last.handled[..from])
  }

  ghost predicate AllLinked(song: Song, rounds: seq<Round>, loops: bool) {
    forall k | 0 <= k < |rounds| ::
      && rounds[k].from <= |rounds[k].handled| && IsStableMerge(song, rounds[k].handled)
      && Linked(song, rounds[..k], rounds[k].from, rounds[k].base, loops)
  }

  lemma AllLinkedAppend(song: Song, rounds: seq<Round>, r: Round, loops: bool)
    requires AllLinked(song, rounds, loops) && Linked(song, rounds, r.from, r.base, loops)
    requires r.from <= |r.handled| && IsStableMerge(song, r.handled)
    ensures AllLinked(song, rounds + [r], loops)
  {
    hide Linked, IsStableMerge;
    var s := rounds + [r];
    forall k | 0 <= k < |s|
      ensures s[k].from <= |s[k].handled| && IsStableMerge(song, s[k].handled)
      ensures Linked(song, s[..k], s[k].from, s[k].base, loops)
    {
      assert s[..k] == rounds[..k];
      assert rounds[..|rounds|] == rounds;
    }
  }

  // The notes of complete rounds, one after the other.
  function SongNotes(song: Song, rounds: seq<Round>): seq<Note>
    requires forall k | 0 <= k < |rounds| :: rounds[k].from <= |rounds[k].handled|
  {
    if rounds == [] then [] else
      SongNotes(song, rounds[..|rounds| - 1]) + NotesOfRound(song, rounds[|rounds| - 1])
  }

  lemma SongNotesAppend(song: Song, rounds: seq<Round>, r: Round)
    requires forall k | 0 <= k < |rounds| :: rounds[k].from <= |rounds[k].handled|
    requires r.from <= |r.handled|
    ensures SongNotes(song, rounds + [r]) == SongNotes(song, rounds) + NotesOfRound(song, r)
  {
    assert (rounds + [r])[..|rounds|] == rounds;
  }

  lemma RoundsShaped(song: Song, rounds: seq<Round>, loops: bool)
    requires AllLinked(song, rounds, loops)
    ensures forall k | 0 <= k < |rounds| :: rounds[k].from <= |rounds[k].handled|
  {}

  // When a round is over and the next one starts after `next`.
  lemma RoundOver(song: Song, rounds: seq<Round>, r: Round, next: seq<Handled>, loops: bool)
    requires AllLinked(song, rounds, loops) && Linked(song, rounds, r.from, r.base, loops)
    requires r.from <= |r.handled| && IsStableMerge(song, r.handled)
    requires next == if loops then LoopPrefix(song, r.handled) else []
    ensures AllLinked(song, rounds + [r], loops)
    ensures Linked(song, rounds + [r], |next|, r.base + Length(song, r.handled) - Length(song, next), loops)
    ensures SongNotes(song, rounds + [r]) == SongNotes(song, rounds) + NotesOfRound(song, r)
    ensures next == if loops then LoopPrefix(song, next) else []
  {
    hide IsStableMerge, LoopPrefix, SongNotes, NotesOfRound, Length, AllLinked;
    assert (rounds + [r])[|rounds|] == r;
    AllLinkedAppend(song, rounds, r, loops);
    RoundsShaped(song, rounds, loops);
    SongNotesAppend(song, rounds, r);
    LoopPrefixAgain(song, r.handled);
    assert r.handled[..|next|] == next;
  }

  // ---------- What a song should sound like ----------

  // The tick of the stream at which tick 0 of the n-th round would be, counted from 0.
  function BaseOf(song: Song, merge: seq<Handled>, from: nat, n: nat): int
    requires from <= |merge|
  {
    if n == 0 then 0 else BaseOf(song, merge, from, n - 1) + Length(song, merge) - Length(song, merge[..from])
  }

  // The whole merge once, and then what comes after the loop point again and again.
  function Repeats(song: Song, merge: seq<Handled>, from: nat, n: nat): seq<Note>
    requires from <= |merge|
  {
    if n == 0 then []
    else
      Repeats(song, merge, from, n - 1)
      + NotesOfRound(song, Round(merge, if n == 1 then 0 else from, BaseOf(song, merge, from, n - 1)))
  }

  // The k-th round of a merge.
  ghost predicate IsRound(song: Song, r: Round, k: nat, merge: seq<Handled>, from: nat)
    requires from <= |merge|
  {
    r == Round(merge, if k == 0 then 0 else from, BaseOf(song, merge, from, k))
  }

  // All rounds are rounds of the same merge.
  lemma {:induction false} RoundsRepeat(song: Song, rounds: seq<Round>, loops: bool, merge: seq<Handled>)
    requires AllLinked(song, rounds, loops) && IsStableMerge(song, merge)
    ensures var from := LoopFrom(song, merge, loops);
      && (forall k | 0 <= k < |rounds| :: IsRound(song, rounds[k], k, merge, from))
      && SongNotes(song, rounds) == Repeats(song, merge, from, |rounds|)
  {
    hide IsStableMerge, LoopFrom, NotesOfRound, Linked, BaseOf, IsRound;
    if rounds != [] {
      var n := |rounds| - 1;
      AllLinkedBefore(song, rounds, loops);
      RoundsRepeat(song, rounds[..n], loops, merge);
      MergeIsUnique(song, rounds[n].handled, merge, 0);
      NextRound(song, rounds, n, loops, merge);
      RoundAdds(song, rounds[n], n, merge, LoopFrom(song, merge, loops));
    }
  }

  lemma NextRound(song: Song, rounds: seq<Round>, n: nat, loops: bool, merge: seq<Handled>)
    requires n < |rounds| && rounds[n].handled == merge
    requires Linked(song, rounds[..n], rounds[n].from, rounds[n].base, loops)
    requires n > 0 ==> IsRound(song, rounds[..n][n - 1], n - 1, merge, LoopFrom(song, merge, loops))
    ensures IsRound(song, rounds[n], n, merge, LoopFrom(song, merge, loops))
  {
    hide LoopFrom, Length;
  }

  lemma RoundAdds(song: Song, r: Round, n: nat, merge: seq<Handled>, from: nat)
    requires from <= |merge| && IsRound(song, r, n, merge, from)
    ensures Repeats(song, merge, from, n + 1) == Repeats(song, merge, from, n) + NotesOfRound(song, r)
  {
    hide NotesOfRound, BaseOf;
  }

  lemma AllLinkedBefore(song: Song, rounds: seq<Round>, loops: bool)
    requires AllLinked(song, rounds, loops) && rounds != []
    ensures AllLinked(song, rounds[..|rounds| - 1], loops)
  {
    hide Linked, IsStableMerge;
    var before := rounds[..|rounds| - 1];
    assert forall k | 0 <= k < |before| :: before[..k] == rounds[..k];
  }
}
