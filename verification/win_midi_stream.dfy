// i_winmusic.c: FillBuffer, which merges the tracks of a song into batches of a few events.
module WinMidiStream {
  import opened WinMidiEvents
  import opened WinMidiMerge
  import opened WinMidiRounds
  import WinMidiBuffer

  const STREAM_MAX_EVENTS: nat := 4

  // The record of a track says how far it was played.
  ghost predicate Stands(track: Track, events: seq<Timed>, pos: nat, ended: bool)
    requires pos <= |events|
    reads track`endOfTrack, track`elapsed
  {
    track.endOfTrack == ended && track.elapsed == Elapsed(events, pos)
  }

  lemma AdvanceStands(song: Song, s: State, i: nat)
    requires Playing(song, s) && IsNext(song, s, i)
    ensures Elapsed(song[i], Advance(song, s, i).pos[i]) == Due(song, s, i)
  {}

  lemma StartStands(song: Song)
    ensures Playing(song, Start(song)) && Clock(song, Start(song)) == 0
    ensures forall i | 0 <= i < |song| :: Elapsed(song[i], 0) == 0
  {
    StartPlaying(song);
  }

  // What is saved of a track says how far it was played at the loop point.
  ghost predicate StoodAt(track: Track, events: seq<Timed>, pos: nat, ended: bool)
    requires pos <= |events|
    reads track`savedEndOfTrack, track`savedElapsed
  {
    track.savedEndOfTrack == ended && track.savedElapsed == Elapsed(events, pos)
  }

  lemma ClockIsLength(song: Song, s: State)
    requires Playing(song, s)
    ensures Clock(song, s) == Length(song, s.handled)
  {
    PlayingShaped(song, s);
  }

  // How many tracks have not ended.
  function Waiting(ended: seq<bool>): nat {
    if ended == [] then 0 else (if ended[0] then 0 else 1) + Waiting(ended[1..])
  }

  lemma {:induction false} OneLessWaits(ended: seq<bool>, i: nat)
    requires i < |ended| && !ended[i]
    ensures Waiting(ended[i := true]) < Waiting(ended)
  {
    if i > 0 {
      OneLessWaits(ended[1..], i - 1);
      assert ended[i := true][1..] == ended[1..][i - 1 := true];
    } else {
      assert ended[i := true][1..] == ended[1..];
    }
  }

  lemma MoreAudible(audible: seq<bool>, heard: bool)
    requires audible == AllAudible(|audible|) && heard
    ensures audible + [heard] == AllAudible(|audible| + 1)
  {}

  // What was played of a round, and written for it and before it.
  datatype Accounted = Accounted(handled: seq<Handled>, elapsed: nat, audible: seq<bool>, out: seq<Native>)

  datatype Outcome = Played(more: bool) | Exhausted | Restarted | Finished

  class Player {
    const song: Song
    const tracks: seq<Track>
    const writer: Writer
    const looping: bool
    const rpgLoop: bool
    var pos: seq<nat>           // where the iterators of the tracks stand
    var loopPoint: seq<nat>     // and where they go back to
    var elapsed: nat            // song.elapsed_time
    var savedElapsed: nat
    ghost var state: State
    ghost var saved: State                // at the loop point
    ghost var rounds: seq<Round>          // those that were played to their end
    ghost var from: nat                   // how much of this round was played before it
    ghost var base: int                   // the tick of the stream that was tick 0 of the song
    ghost var audible: seq<bool>          // which events of this round were not for another device
    ghost var past: seq<Note>             // the notes of the rounds before it
    ghost var streamed: nat               // how much of the output was sent

    constructor (song: Song, writer: Writer, looping: bool)
      requires Playable(song, writer.level) && writer.Valid() && writer.out == []
      ensures Valid() && this.song == song && this.writer == writer && this.looping == looping
      ensures state == Start(song) && elapsed == 0 && rounds == [] && forall t | t in tracks :: fresh(t)
    {
      hide IsRpgLoop, Playable, NoDesignation, Elapsed, Playing, Clock, WellFormed;
      this.song, this.writer, this.looping := song, writer, looping;
      var isRpg := CheckRpgLoop(song);
      rpgLoop := isRpg;
      var all: seq<Track> := [];
      while |all| < |song|
        invariant |all| <= |song| && (forall t | t in all :: fresh(t) && !t.endOfTrack && t.elapsed == 0)
        invariant forall t | t in all :: !t.savedEndOfTrack && t.savedElapsed == 0 && !t.designated
        invariant forall i, j | 0 <= i < j < |all| :: all[i] != all[j]
      {
        var t := new Track();
        all := all + [t];
      }
      tracks := all;
      pos, loopPoint := seq(|song|, _ => 0), seq(|song|, _ => 0);
      elapsed, savedElapsed, state, saved := 0, 0, Start(song), Start(song);
      rounds, from, base, streamed, audible, past := [], 0, 0, |writer.out|, [], [];
      StartStands(song);
      new;
      PlayingShaped(song, state);
    }

    // Levels other than vanilla know the loop point.
    predicate Loops() {
      rpgLoop && writer.level != Vanilla
    }

    // Every track is for this device.
    ghost predicate AllHeard() {
      writer.level == Vanilla || NoDesignation(song)
    }

    ghost predicate Distinct() {
      |tracks| == |song| && forall i, j | 0 <= i < j < |tracks| :: tracks[i] != tracks[j]
    }

    ghost predicate Fits()
      reads this`pos, this`elapsed, this`state, writer`volumeFactor, tracks`endOfTrack, tracks`elapsed
    {
      && Distinct() && Playable(song, writer.level) && writer.Valid() && rpgLoop == IsRpgLoop(song)
      && Playing(song, state) && pos == state.pos && |pos| == |state.ended| == |song|
      && (forall i | 0 <= i < |tracks| :: pos[i] <= |song[i]| && Stands(tracks[i], song[i], pos[i], state.ended[i]))
      && elapsed == Clock(song, state)
    }

    // What would be played again.
    ghost predicate Remembers()
      reads this`loopPoint, this`savedElapsed, this`saved, tracks`savedEndOfTrack, tracks`savedElapsed
    {
      && Distinct()
      && Playing(song, saved) && loopPoint == saved.pos && |loopPoint| == |saved.ended| == |song|
      && (forall i | 0 <= i < |tracks| ::
            loopPoint[i] <= |song[i]| && StoodAt(tracks[i], song[i], loopPoint[i], saved.ended[i]))
      && savedElapsed == Clock(song, saved)
    }

    ghost predicate LoopsBack()
      reads this`state, this`saved
    {
      saved.handled == if Loops() then LoopPrefix(song, state.handled) else []
    }

    ghost predicate Undesignated()
      reads tracks`designated
    {
      NoDesignation(song) ==> forall t | t in tracks :: !t.designated
    }

    // All the time that was written is the time that was played, and the stream sounds like the
    // events that were played.
    ghost predicate Sounded(was: Accounted)
      reads this`from, this`base, this`past
    {
      && from <= |was.handled| == from + |was.audible|
      && Total(was.out) == base + was.elapsed
      && Sounding(was.out) == past + RoundNotes(song, was.handled[from..], was.audible, base)
      && AllEncodable(was.out)
    }

    // The rounds follow each other.
    ghost predicate Repeated(was: Accounted)
      reads this`rounds, this`from, this`base, this`past
    {
      && AllLinked(song, rounds, Loops()) && Linked(song, rounds, from, base, Loops())
      && (AllHeard() ==> was.audible == AllAudible(|was.audible|) && past == SongNotes(song, rounds))
    }

    // What they speak of.
    ghost function Account(): Accounted
      reads this`state, this`elapsed, this`audible, writer`out
    {
      Accounted(state.handled, elapsed, audible, writer.out)
    }

    ghost predicate Sounds()
      reads this`state, this`elapsed, this`from, this`base, this`audible, this`past, writer`out
    {
      Sounded(Account())
    }

    ghost predicate Repeating()
      reads this`state, this`elapsed, this`rounds, this`from, this`base, this`audible, this`past, writer`out
    {
      Repeated(Account())
    }

    ghost predicate Valid()
      reads this`pos, this`loopPoint, this`elapsed, this`savedElapsed, this`state, this`saved, this`rounds, this`from,
            this`base, this`audible, this`past, writer`volumeFactor, writer`out, tracks
    {
      Fits() && Remembers() && LoopsBack() && Undesignated() && Sounds() && Repeating()
    }

    // When a song has been played to its end, for the n-th time, the stream sounds like the stable
    // merge of its tracks, and n - 1 times what comes after the loop point, without a gap.  It
    // does not matter how the merge is computed.
    lemma SoundsLikeTheMerge(merge: seq<Handled>)
      requires Valid() && AllHeard()
      requires IsStableMerge(song, state.handled) && IsStableMerge(song, merge)
      ensures var loop, n := LoopFrom(song, merge, Loops()), |rounds| + 1;
        && Sounding(writer.out) == Repeats(song, merge, loop, n)
        && Total(writer.out) == BaseOf(song, merge, loop, n - 1) + Length(song, merge)
    {
      hide Sounding, RoundNotes, IsStableMerge, Total, Playing, Playable, Linked, LoopFrom, BaseOf, Repeats, SongNotes;
      MergeIsUnique(song, state.handled, merge, 0);
      ClockIsLength(song, state);
      var r := Round(state.handled, from, base);
      AllLinkedAppend(song, rounds, r, Loops());
      RoundsRepeat(song, rounds + [r], Loops(), merge);
      SongNotesAppend(song, rounds, r);
      assert IsRound(song, (rounds + [r])[|rounds|], |rounds|, merge, LoopFrom(song, merge, Loops()));
    }

    // The search at the head of FillBuffer, -1 when no track is left.
    method FindNext() returns (next: int, minTime: nat)
      requires Fits()
      ensures next == -1 ==> forall i | 0 <= i < |song| :: state.ended[i]
      ensures next != -1 ==>
          0 <= next < |song| && IsNext(song, state, next) && minTime == Due(song, state, next) < UINT_MAX
    {
      hide Playing, WellFormed, IsLoopPoint, Player.Loops;
      PlayingShaped(song, state);
      next, minTime := -1, UINT_MAX;
      var i := 0;
      while i < |tracks|
        invariant 0 <= i <= |tracks|
        invariant next == -1 ==> minTime == UINT_MAX && forall j | 0 <= j < i :: state.ended[j]
        invariant next != -1 ==> 0 <= next < i && !state.ended[next] && minTime == Due(song, state, next) < UINT_MAX
        invariant next != -1 ==> forall j | 0 <= j < i && !state.ended[j] ::
                    NotAfter(Due(song, state, next), next, Due(song, state, j), j)
      {
        if !tracks[i].endOfTrack {
          ElapsedMonotone(song[i], if pos[i] < |song[i]| then pos[i] + 1 else pos[i], |song[i]|);
          var deltaTime := if pos[i] < |song[i]| then song[i][pos[i]].delta else 0;
          var time := tracks[i].elapsed + deltaTime;
          if time < minTime {
            minTime := time;
            next := i;
          }
        }
        i := i + 1;
      }
    }

    // A track without a further event ends; no time goes by.
    method EndTrack(i: nat, minTime: nat)
      requires Valid() && i < |song| && IsNext(song, state, i) && minTime == Due(song, state, i) && pos[i] >= |song[i]|
      modifies this`elapsed, this`state, tracks
      ensures Valid() && state == Advance(song, old(state), i)
    {
      hide Playing, Playable, Elapsed, Due, Clock, IsRpgLoop, NoDesignation, LoopPrefix, Shaped;
      hide Player.Sounded, Player.Repeated, Player.Remembers, Player.Undesignated;
      PlayingShaped(song, state);
      AdvanceStands(song, state, i);
      NextIsDue(song, state, i);
      AdvancePlaying(song, state, i);
      PlayingShaped(song, Advance(song, state, i));
      tracks[i].elapsed := minTime;
      elapsed := minTime;
      state := Advance(song, state, i);
      tracks[i].endOfTrack := true;
    }

    // SetLoopPoint
    method SetLoopPoint()
      requires Fits() && Undesignated() && Loops() && LoopPrefix(song, state.handled) == state.handled
      modifies this`loopPoint, this`savedElapsed, this`saved, tracks
      ensures Fits() && Undesignated() && Remembers() && LoopsBack()
    {
      hide Playing, Playable, Elapsed, Clock, IsRpgLoop, NoDesignation, LoopPrefix;
      SaveTracks();
      loopPoint := pos;
      savedElapsed := elapsed;
      saved := state;
    }

    // The loop of SetLoopPoint.
    method SaveTracks()
      requires Distinct()
      modifies tracks
      ensures forall j | 0 <= j < |tracks| ::
        && tracks[j].savedElapsed == tracks[j].elapsed == old(tracks[j].elapsed)
        && tracks[j].savedEndOfTrack == tracks[j].endOfTrack == old(tracks[j].endOfTrack)
        && tracks[j].designated == old(tracks[j].designated)
    {
      var i := 0;
      while i < |tracks|
        invariant 0 <= i <= |tracks|
        invariant forall j | 0 <= j < |tracks| ::
          && tracks[j].elapsed == old(tracks[j].elapsed) && tracks[j].endOfTrack == old(tracks[j].endOfTrack)
          && tracks[j].designated == old(tracks[j].designated)
        invariant forall j | 0 <= j < i ::
          tracks[j].savedElapsed == tracks[j].elapsed && tracks[j].savedEndOfTrack == tracks[j].endOfTrack
      {
        tracks[i].savedEndOfTrack, tracks[i].savedElapsed := tracks[i].endOfTrack, tracks[i].elapsed;
        i := i + 1;
      }
    }

    // The next event of a track is written, with the ticks since the one before it.  It is heard
    // unless its track is for another device.
    method PlayEvent(i: nat, minTime: nat) returns (more: bool)
      requires Valid() && i < |song| && IsNext(song, state, i) && minTime == Due(song, state, i) < UINT_MAX
      requires pos[i] < |song[i]|
      modifies this`pos, this`loopPoint, this`elapsed, this`savedElapsed, this`state, this`saved, this`audible,
               writer`out, writer`tempo, writer`useFallback, writer.channelVolume, tracks
      ensures Valid() && state == Advance(song, old(state), i) && old(writer.out) <= writer.out
      ensures audible == old(audible) + [writer.level == Vanilla || !old(writer.Excluded(tracks[i]))]
      ensures more == !song[i][old(pos[i])].event.SysEx?
    {
      hide Playing, WellFormed, IsLoopPoint, Elapsed, Clock, Playable, Due, Time;
      hide IsRpgLoop, NoDesignation, LoopPrefix, IsExclusion, Designates;
      hide Player.Sounded, Player.Repeated, Player.Remembers, Player.Undesignated, Player.FitsBut, Player.Fits;
      hide AllAudible, Advance, IsNext;
      Unfinished(i);
      var next := pos[i];
      ghost var h, was := Handled(i, next), Account();
      EventFacts(h);
      var deltaTime := MoveOn(i, minTime);
      var atLoopPoint;
      more, atLoopPoint := WriteEvent(i, deltaTime, song[i][next].event, was, h);
      if atLoopPoint {
        SetLoopPoint();
      }
    }

    // AddToBuffer for an event of track i.
    method WriteEvent(i: nat, deltaTime: nat, event: Event, ghost was: Accounted, ghost h: Handled)
        returns (more: bool, atLoopPoint: bool)
      requires FitsBut(i) && Undesignated() && Sounded(was) && Repeated(was) && i < |song|
      requires !tracks[i].endOfTrack && state.ended[i] == IsEnd(event) && deltaTime < UINT_MAX
      requires InSong(song, h) && EventOf(song, h) == event && state.handled == was.handled + [h]
      requires was.elapsed + deltaTime == elapsed == Time(song, h) && was.out == writer.out && was.audible == audible
      requires WellFormed(event) && (writer.level != Vanilla ==> !IsLoopPoint(event))
      requires (NoDesignation(song) ==> !Designates(event, rpgLoop)) && (rpgLoop ==> NoDesignation(song))
      modifies this`audible, writer`out, writer`tempo, writer`useFallback, writer.channelVolume, tracks`endOfTrack,
               tracks`deviceFlags, tracks`designated, tracks`ownProgram, tracks`ownVolume
      ensures Fits() && Undesignated() && Sounds() && Repeating() && old(writer.out) <= writer.out
      ensures audible == old(audible) + [writer.level == Vanilla || !old(writer.Excluded(tracks[i]))]
      ensures more == !event.SysEx? && atLoopPoint == (Loops() && IsExclusion(event))
    {
      hide Playing, WellFormed, IsLoopPoint, Total, Sounding, Elapsed, Clock, Playable, NotesOf, Time;
      hide IsRpgLoop, NoDesignation, IsExclusion, Designates, AllEncodable;
      hide Player.Sounded, Player.Repeated;
      assert tracks[i] in tracks;
      var checked: Fallback := *;
      ghost var heard := writer.level == Vanilla || !writer.Excluded(tracks[i]);
      audible := audible + [heard];
      var jump;
      more, jump := writer.AddToBuffer(deltaTime, event, tracks[i], checked, rpgLoop);
      atLoopPoint := jump == SetPoint;
      if writer.level != Vanilla { OnlyLoopPoint(event, rpgLoop); }
      SoundsMore(was, h, heard);
    }

    lemma Unfinished(i: nat)
      requires Fits() && i < |song| && IsNext(song, state, i)
      ensures |pos| == |tracks| == |song| && !tracks[i].endOfTrack
    {
      hide Playing, Elapsed, Playable, Clock;
    }

    // The part of it before the event is written.
    method MoveOn(i: nat, minTime: nat) returns (deltaTime: nat)
      requires Fits() && i < |song| && IsNext(song, state, i) && minTime == Due(song, state, i) < UINT_MAX
      requires pos[i] < |song[i]|
      modifies this`pos, this`elapsed, this`state, tracks`elapsed
      ensures FitsBut(i) && state == Advance(song, old(state), i) && !tracks[i].endOfTrack
      ensures old(elapsed) <= elapsed == Time(song, Handled(i, old(pos[i])))
          && deltaTime == elapsed - old(elapsed) < UINT_MAX
      ensures state.handled == old(state.handled) + [Handled(i, old(pos[i]))]
      ensures state.ended[i] == IsEnd(song[i][old(pos[i])].event)
    {
      hide Playing, Elapsed, Clock, Playable, Shaped, IsRpgLoop;
      PlayingShaped(song, state);
      AdvanceStands(song, state, i);
      NextIsDue(song, state, i);
      AdvancePlaying(song, state, i);
      PlayingShaped(song, Advance(song, state, i));
      tracks[i].elapsed := minTime;
      deltaTime := minTime - elapsed;
      elapsed := minTime;
      state := Advance(song, state, i);
      pos := pos[i := pos[i] + 1];
    }

    // Fits, but for the end of one track.
    ghost predicate FitsBut(i: nat)
      reads this`pos, this`elapsed, this`state, writer`volumeFactor, tracks`endOfTrack, tracks`elapsed
    {
      && Distinct() && Playable(song, writer.level) && writer.Valid() && rpgLoop == IsRpgLoop(song)
      && Playing(song, state) && pos == state.pos && |pos| == |state.ended| == |song|
      && (forall j | 0 <= j < |tracks| ::
            && pos[j] <= |song[j]| && tracks[j].elapsed == Elapsed(song[j], pos[j])
            && (j != i ==> tracks[j].endOfTrack == state.ended[j]))
      && elapsed == Clock(song, state)
    }

    // One event more.
    lemma SoundsMore(was: Accounted, h: Handled, heard: bool)
      requires Sounded(was) && Repeated(was) && InSong(song, h)
      requires state.handled == was.handled + [h] && audible == was.audible + [heard] && elapsed == Time(song, h)
      requires was.elapsed <= elapsed
      requires writer.Wrote(was.out, elapsed - was.elapsed,
                            if heard then NotesOf(EventOf(song, h), Total(was.out) + (elapsed - was.elapsed)) else [])
      requires AllHeard() ==> heard
      ensures Sounds() && Repeating()
    {
      hide Total, Sounding, NotesOf, AllEncodable, Time, NoDesignation, RoundNotes, AllLinked, Linked, SongNotes;
      assert state.handled[from..] == was.handled[from..] + [h];
      RoundNotesAppend(song, was.handled[from..], was.audible, base, h, heard);
      if AllHeard() { MoreAudible(was.audible, heard); }
    }

    lemma EventFacts(h: Handled)
      requires Valid() && InSong(song, h)
      ensures WellFormed(EventOf(song, h)) && (writer.level != Vanilla ==> !IsLoopPoint(EventOf(song, h)))
      ensures NoDesignation(song) ==> !Designates(EventOf(song, h), rpgLoop)
      ensures rpgLoop ==> NoDesignation(song)
      ensures LoopPrefix(song, state.handled + [h])
        == if IsExclusion(EventOf(song, h)) then state.handled + [h] else LoopPrefix(song, state.handled)
    {
      hide IsRpgLoop, WellFormed, IsLoopPoint, Designates, LoopPrefix, Playing, Elapsed;
      PlayableEvent(song, writer.level, h);
      LoopPrefixAppend(song, state.handled, h);
      if rpgLoop { RpgHasNoDesignation(song); }
    }

    // The rest of a round of FillBuffer: one event of track i, or the end of the track.
    method PlayNext(i: nat, minTime: nat) returns (played: bool, more: bool)
      requires Valid() && i < |song| && IsNext(song, state, i) && minTime == Due(song, state, i) < UINT_MAX
      modifies this`pos, this`loopPoint, this`elapsed, this`savedElapsed, this`state, this`saved, this`audible,
               writer`out, writer`tempo, writer`useFallback, writer.channelVolume, tracks
      ensures Valid() && state == Advance(song, old(state), i) && old(writer.out) <= writer.out
      ensures played == (old(pos[i]) < |song[i]|)
      ensures played ==> more == !song[i][old(pos[i])].event.SysEx? && |state.handled| == |old(state.handled)| + 1
      ensures !played ==> state.handled == old(state.handled) && Waiting(state.ended) < Waiting(old(state.ended))
    {
      hide Playing, Playable, Elapsed, Due, Clock, Stands, Waiting, Total, Sounding, RoundNotes;
      hide Player.Repeating, Player.Sounds, Player.Undesignated, Player.LoopsBack, Player.Remembers;
      if pos[i] >= |song[i]| {
        OneLessWaits(state.ended, i);
        EndTrack(i, minTime);
        return false, true;
      }
      more := PlayEvent(i, minTime);
      played := true;
    }

    // Before the song starts again from its start, every channel is reset.
    method SendResets()
      requires Sounds() && Repeating()
      modifies writer`out
      ensures Sounds() && Repeating() && old(writer.out) <= writer.out
    {
      hide Total, Sounding, AllEncodable;
      var i: int := 0;
      while i < 16
        invariant 0 <= i <= 16 && Total(writer.out) == Total(old(writer.out)) && old(writer.out) <= writer.out
        invariant Sounding(writer.out) == Sounding(old(writer.out))
        invariant AllEncodable(old(writer.out)) ==> AllEncodable(writer.out)
      {
        writer.SendShortMsg(0, CONTROLLER, i, 0x79, 0);
        i := i + 1;
      }
    }

    // The loop of RestartTracks.
    method ResetTracks()
      requires Distinct()
      modifies tracks
      ensures forall j | 0 <= j < |tracks| ::
        && tracks[j].elapsed == 0 && !tracks[j].endOfTrack && !tracks[j].designated
        && tracks[j].savedElapsed == old(tracks[j].savedElapsed)
        && tracks[j].savedEndOfTrack == old(tracks[j].savedEndOfTrack)
    {
      var i := 0;
      while i < |tracks|
        invariant 0 <= i <= |tracks|
        invariant forall j | 0 <= j < i :: tracks[j].elapsed == 0 && !tracks[j].endOfTrack && !tracks[j].designated
        invariant forall j | 0 <= j < |tracks| ::
          && tracks[j].savedElapsed == old(tracks[j].savedElapsed)
          && tracks[j].savedEndOfTrack == old(tracks[j].savedEndOfTrack)
      {
        tracks[i].elapsed, tracks[i].endOfTrack := 0, false;
        tracks[i].deviceFlags, tracks[i].designated := 0, false;
        tracks[i].ownProgram, tracks[i].ownVolume := false, false;
        i := i + 1;
      }
    }

    // The loop of RestartLoop.
    method RestoreTracks()
      requires Distinct()
      modifies tracks
      ensures forall j | 0 <= j < |tracks| ::
        && tracks[j].elapsed == tracks[j].savedElapsed == old(tracks[j].savedElapsed)
        && tracks[j].endOfTrack == tracks[j].savedEndOfTrack == old(tracks[j].savedEndOfTrack)
        && tracks[j].designated == old(tracks[j].designated)
    {
      var i := 0;
      while i < |tracks|
        invariant 0 <= i <= |tracks|
        invariant forall j | 0 <= j < |tracks| ::
          && tracks[j].savedElapsed == old(tracks[j].savedElapsed)
          && tracks[j].savedEndOfTrack == old(tracks[j].savedEndOfTrack)
          && tracks[j].designated == old(tracks[j].designated)
        invariant forall j | 0 <= j < i ::
          tracks[j].elapsed == tracks[j].savedElapsed && tracks[j].endOfTrack == tracks[j].savedEndOfTrack
      {
        tracks[i].endOfTrack, tracks[i].elapsed := tracks[i].savedEndOfTrack, tracks[i].savedElapsed;
        i := i + 1;
      }
    }

    // Another round starts where `next` stands.
    method BeginRound(nextElapsed: nat, ghost next: State)
      requires Sounds() && Repeating() && IsStableMerge(song, state.handled) && elapsed == Length(song, state.handled)
      requires next.handled == if Loops() then LoopPrefix(song, state.handled) else []
      requires nextElapsed == Length(song, next.handled)
      modifies this`elapsed, this`state, this`rounds, this`from, this`base, this`audible, this`past
      ensures Sounds() && Repeating() && LoopsTo(next)
      ensures elapsed == nextElapsed && state == next
      ensures rounds == old(rounds) + [Round(old(state).handled, old(from), old(base))]
    {
      hide Total, Sounding, IsStableMerge, AllLinked, Linked, AllEncodable, LoopPrefix, Length, NoDesignation,
          SongNotes;
      hide RoundNotes, IsRpgLoop, InSong;
      ghost var r := Round(state.handled, from, base);
      RoundOver(song, rounds, r, next.handled, Loops());
      NoNotes(song, base + elapsed - nextElapsed);
      assert next.handled[|next.handled|..] == [];
      past := past + RoundNotes(song, state.handled[from..], audible, base);
      rounds := rounds + [r];
      from, base, audible := |next.handled|, base + elapsed - nextElapsed, [];
      elapsed := nextElapsed;
      state := next;
    }

    ghost predicate LoopsTo(next: State) {
      next.handled == if Loops() then LoopPrefix(song, next.handled) else []
    }

    // RestartTracks: the song starts again from its start.
    method RestartTracks()
      requires Valid() && !rpgLoop && IsStableMerge(song, state.handled)
      modifies this`pos, this`loopPoint, this`elapsed, this`state, this`rounds, this`from, this`base, this`audible,
               this`past, tracks
      ensures Valid() && state == Start(song)
      ensures rounds == old(rounds) + [Round(old(state).handled, old(from), old(base))]
    {
      hide Playing, Playable, IsStableMerge, Elapsed, IsRpgLoop, NoDesignation, Clock, LoopPrefix, Length;
      hide Player.Sounds, Player.Repeating;
      ClockIsLength(song, state);
      StartStands(song);
      PlayingShaped(song, Start(song));
      ClockIsLength(song, Start(song));
      SavedStart();
      BeginRound(0, Start(song));
      ResetTracks();
      pos, loopPoint := seq(|song|, _ => 0), seq(|song|, _ => 0);
    }

    // Without a loop point, the start is where every track would go back to.
    lemma SavedStart()
      requires Remembers() && LoopsBack() && !rpgLoop
      ensures loopPoint == seq(|song|, _ => 0)
    {
      hide Elapsed, Clock, InOrder;
      forall i | 0 <= i < |song|
        ensures loopPoint[i] == 0
      {
        assert Count(saved.handled, i) == saved.pos[i];
      }
    }

    // RestartLoop: the song goes on from its loop point, or from its start if there was none.
    method RestartLoop()
      requires Valid() && rpgLoop && IsStableMerge(song, state.handled)
      modifies this`pos, this`elapsed, this`state, this`rounds, this`from, this`base, this`audible, this`past, tracks
      ensures Valid() && state == saved
      ensures state.handled == if Loops() then LoopPrefix(song, old(state).handled) else []
      ensures rounds == old(rounds) + [Round(old(state).handled, old(from), old(base))]
    {
      hide Playing, Playable, IsStableMerge, Elapsed, IsRpgLoop, NoDesignation, Clock, LoopPrefix, Length;
      hide Player.Sounds, Player.Repeating;
      ClockIsLength(song, state);
      ClockIsLength(song, saved);
      BeginRound(savedElapsed, saved);
      RestoreTracks();
      pos := loopPoint;
    }

    // What FillBuffer does when no track is left.
    method StartAgain() returns (again: bool)
      requires Valid() && forall i | 0 <= i < |song| :: state.ended[i]
      modifies this`pos, this`loopPoint, this`elapsed, this`state, this`rounds, this`from, this`base, this`audible,
               this`past, writer`out, tracks
      ensures Valid() && old(writer.out) <= writer.out && IsStableMerge(song, old(state).handled)
      ensures again == (old(elapsed) > 0 && (rpgLoop || looping))
      ensures again ==> rounds == old(rounds) + [Round(old(state).handled, old(from), old(base))]
      ensures again ==> |state.handled| < |old(state).handled|
      ensures again ==> state.handled == if Loops() then LoopPrefix(song, old(state).handled) else []
      ensures !again ==> rounds == old(rounds) && state == old(state)
    {
      hide Playing, Playable, IsStableMerge, Elapsed, IsRpgLoop, NoDesignation, LoopPrefix;
      hide Player.Sounded, Player.Repeated, Player.Remembers, Player.Undesignated;
      LastRound();
      again := false;
      if elapsed > 0 {
        if rpgLoop {
          RestartLoop();
          return true;
        } else if looping {
          SendResets();
          RestartTracks();
          return true;
        }
      }
    }

    // The song is over, and something of it comes after the loop point.
    lemma LastRound()
      requires Fits() && forall i | 0 <= i < |song| :: state.ended[i]
      ensures IsStableMerge(song, state.handled) && (elapsed > 0 ==> state.handled != [])
      ensures rpgLoop && state.handled != [] ==> |LoopPrefix(song, state.handled)| < |state.handled|
    {
      hide Playing, IsStableMerge, Elapsed, IsRpgLoop, LoopPrefix;
      AllEnded(song, state);
      ClockIsLength(song, state);
      if rpgLoop && state.handled != [] { MergeEndsWithEnd(song, state.handled); }
    }

    // One round of the loop of FillBuffer.
    method PlayOne() returns (outcome: Outcome)
      requires Valid()
      modifies this`pos, this`loopPoint, this`elapsed, this`savedElapsed, this`state, this`saved, this`rounds,
               this`from, this`base, this`audible, this`past,
               writer`out, writer`tempo, writer`useFallback, writer.channelVolume, tracks
      ensures Valid() && old(writer.out) <= writer.out
      ensures outcome.Restarted? ==>
        && old(elapsed) > 0 && (rpgLoop || looping) && |state.handled| < |old(state).handled|
        && rounds == old(rounds) + [Round(old(state).handled, old(from), old(base))]
        && state.handled == (if Loops() then LoopPrefix(song, old(state).handled) else [])
      ensures !outcome.Restarted? ==> rounds == old(rounds) && old(state).handled <= state.handled
      ensures outcome.Played? ==> |state.handled| == |old(state).handled| + 1
      ensures outcome.Exhausted? ==>
        state.handled == old(state).handled && Waiting(state.ended) < Waiting(old(state).ended)
      ensures outcome.Finished? ==>
        && IsStableMerge(song, state.handled) && state == old(state)
        && (elapsed == 0 || !(rpgLoop || looping))
    {
      hide Playing, Playable, IsStableMerge, Elapsed, IsRpgLoop, NoDesignation, Due, LoopPrefix, Waiting;
      hide Player.Sounded, Player.Repeated, Player.Remembers, Player.Undesignated;
      var next, minTime := FindNext();
      PlayingShaped(song, state);
      if next == -1 {
        var again := StartAgain();
        return if again then Restarted else Finished;
      }
      var played, more := PlayNext(next, minTime);
      outcome := if played then Played(more) else Exhausted;
    }

    // FillBuffer: writes up to four events, fewer when a system exclusive message or the end of
    // the song comes first, and sends them.  Returns how many events it played.  A song is over
    // when a batch is empty; one with a loop point never is, whether it is to be repeated or not.
    method FillBuffer() returns (ghost count: nat)
      requires Valid()
      modifies this, writer, writer.channelVolume, tracks
      ensures Valid() && old(writer.out) <= writer.out && count <= STREAM_MAX_EVENTS
      ensures count > 0 ==> streamed == |writer.out|
      ensures old(rounds) <= rounds && (!looping && !rpgLoop ==> rounds == old(rounds))
      ensures rounds == old(rounds) ==>
        old(state).handled <= state.handled && |state.handled| == |old(state).handled| + count
      ensures count == 0 ==> IsStableMerge(song, state.handled) && (elapsed == 0 || !(rpgLoop || looping))
    {
      hide Player.Valid, IsStableMerge, LoopPrefix;
      var numEvents := 0;
      count := 0;
      while numEvents < STREAM_MAX_EVENTS
        invariant Valid() && old(writer.out) <= writer.out && count == numEvents <= STREAM_MAX_EVENTS
        invariant old(rounds) <= rounds && (!looping && !rpgLoop ==> rounds == old(rounds))
        invariant rounds == old(rounds) ==>
          old(state).handled <= state.handled && |state.handled| == |old(state).handled| + count
        decreases STREAM_MAX_EVENTS - numEvents, |state.handled|, Waiting(state.ended)
      {
        var outcome := PlayOne();
        match outcome {
          case Restarted => continue;
          case Exhausted => continue;
          case Finished => break;
          case Played(more) =>
            count := count + 1;
            if !more {
              streamed := |writer.out|;
              return;
            }
            numEvents := numEvents + 1;
        }
      }
      if numEvents > 0 {
        streamed := |writer.out|;
      }
    }

    // Whatever was written, the device reads it back from the bytes of the stream.
    lemma StreamIsReadBack()
      requires Valid()
      ensures forall e | e in writer.out :: Encodable(e)
      ensures WinMidiBuffer.ParseAll(WinMidiBuffer.EncodeAll(writer.out), 0) == WinMidiBuffer.Stream(writer.out)
    {
      hide Encodable, Playing, Playable, Player.Fits, Player.Remembers, Player.Repeated, Sounding, Total;
      assert AllEncodable(writer.out);
      forall e | e in writer.out
        ensures Encodable(e)
      {
        var i :| 0 <= i < |writer.out| && writer.out[i] == e;
      }
      WinMidiBuffer.StreamRoundTrip(writer.out, []);
      assert [] + WinMidiBuffer.EncodeAll(writer.out) == WinMidiBuffer.EncodeAll(writer.out);
    }
  }
}
