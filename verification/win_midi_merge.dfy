// i_winmusic.c: the order in which the events of several tracks are played.
module WinMidiMerge {
  import opened WinMidiEvents

  // An event, and the ticks since the one before it in its track.
  datatype Timed = Timed(delta: nat, event: Event)

  type Song = seq<seq<Timed>>

  // The k-th event of a track.
  datatype Handled = Handled(track: nat, index: nat)

  // The ticks up to and with the first n events of a track.
  function Elapsed(events: seq<Timed>, n: nat): nat
    requires n <= |events|
  {
    if n == 0 then 0 else Elapsed(events, n - 1) + events[n - 1].delta
  }

  // When an event is due.
  function Time(song: Song, h: Handled): nat
    requires InSong(song, h)
  {
    Elapsed(song[h.track], h.index + 1)
  }

  predicate InSong(song: Song, h: Handled) {
    h.track < |song| && h.index < |song[h.track]|
  }

  // How much of a track is heard: up to the first end-of-track event, or all of it.
  function Heard(events: seq<Timed>): (n: nat)
    ensures n <= |events|
    ensures forall k | 0 <= k < n - 1 :: !IsEnd(events[k].event)
    ensures n < |events| ==> n > 0 && IsEnd(events[n - 1].event)
  {
    if events == [] then 0
    else if IsEnd(events[0].event) then 1
    else 1 + Heard(events[1..])
  }

  // How many events of a track are in a list.
  function Count(handled: seq<Handled>, track: nat): nat {
    if handled == [] then 0
    else Count(handled[..|handled| - 1], track) + (if handled[|handled| - 1].track == track then 1 else 0)
  }

  // Earlier events first, and of those at the same tick the ones of lower tracks.
  predicate NotAfter(timeA: nat, trackA: nat, timeB: nat, trackB: nat) {
    timeA < timeB || (timeA == timeB && trackA <= trackB)
  }

  // ---------- The state of play ----------

  datatype State = State(pos: seq<nat>, ended: seq<bool>, handled: seq<Handled>)

  function Start(song: Song): State {
    State(seq(|song|, _ => 0), seq(|song|, _ => false), [])
  }

  // When the next event of a track is due; an exhausted track waits for nothing.
  function Due(song: Song, s: State, i: nat): nat
    requires i < |song| == |s.pos| && s.pos[i] <= |song[i]|
  {
    if s.pos[i] < |song[i]| then Elapsed(song[i], s.pos[i] + 1) else Elapsed(song[i], s.pos[i])
  }

  function Clock(song: Song, s: State): nat
    requires forall h | h in s.handled :: InSong(song, h)
  {
    if s.handled == [] then 0 else Time(song, s.handled[|s.handled| - 1])
  }

  ghost predicate Shaped(song: Song, s: State) {
    && |s.pos| == |s.ended| == |song|
    && (forall i | 0 <= i < |song| :: s.pos[i] <= Heard(song[i]) && Count(s.handled, i) == s.pos[i])
    && (forall i | 0 <= i < |song| && s.ended[i] :: s.pos[i] == Heard(song[i]))
    && (forall i | 0 <= i < |song| && !s.ended[i] && s.pos[i] > 0 :: !IsEnd(song[i][s.pos[i] - 1].event))
  }

  // What was played is in order, and each track in its own.
  ghost predicate InOrder(song: Song, handled: seq<Handled>) {
    && (forall h | h in handled :: InSong(song, h))
    && (forall k | 0 <= k < |handled| :: handled[k].index == Count(handled[..k], handled[k].track))
    && (forall a, b | 0 <= a < b < |handled| ::
          NotAfter(Time(song, handled[a]), handled[a].track, Time(song, handled[b]), handled[b].track))
  }

  // Nothing that waits should have been played already.
  ghost predicate Playing(song: Song, s: State) {
    && Shaped(song, s) && InOrder(song, s.handled)
    && (forall i | 0 <= i < |song| :: Elapsed(song[i], s.pos[i]) <= Clock(song, s))
    && (s.handled != [] ==>
          var last := s.handled[|s.handled| - 1];
          forall i | 0 <= i < |song| && !s.ended[i] :: NotAfter(Clock(song, s), last.track, Due(song, s, i), i))
  }

  // The track to play next: the lowest of those whose event is due first.
  ghost predicate IsNext(song: Song, s: State, i: nat)
    requires Shaped(song, s)
  {
    && i < |song| && !s.ended[i]
    && forall j | 0 <= j < |song| && !s.ended[j] :: NotAfter(Due(song, s, i), i, Due(song, s, j), j)
  }

  function Advance(song: Song, s: State, i: nat): State
    requires i < |song| == |s.pos| == |s.ended|
  {
    if s.pos[i] >= |song[i]| then s.(ended := s.ended[i := true])
    else State(s.pos[i := s.pos[i] + 1], s.ended[i := IsEnd(song[i][s.pos[i]].event)],
        s.handled + [Handled(i, s.pos[i])])
  }

  lemma {:induction false} ElapsedMonotone(events: seq<Timed>, m: nat, n: nat)
    requires m <= n <= |events|
    ensures Elapsed(events, m) <= Elapsed(events, n)
  {
    if m < n {
      ElapsedMonotone(events, m, n - 1);
    }
  }

  lemma {:induction false} CountAppend(handled: seq<Handled>, h: Handled, track: nat)
    ensures Count(handled + [h], track) == Count(handled, track) + (if h.track == track then 1 else 0)
  {
    assert (handled + [h])[..|handled|] == handled;
  }

  // The clock never goes back, and an exhausted track is found before it moves on.
  lemma NextIsDue(song: Song, s: State, i: nat)
    requires Playing(song, s) && IsNext(song, s, i)
    ensures Clock(song, s) <= Due(song, s, i)
    ensures s.pos[i] >= |song[i]| ==> Due(song, s, i) == Clock(song, s)
  {
    hide Elapsed, InOrder;
  }

  lemma PlayingShaped(song: Song, s: State)
    requires Playing(song, s)
    ensures Shaped(song, s) && forall h | h in s.handled :: InSong(song, h)
  {}

  lemma StartPlaying(song: Song)
    ensures Playing(song, Start(song))
  {}

  lemma InOrderAppend(song: Song, handled: seq<Handled>, h: Handled)
    requires InOrder(song, handled) && InSong(song, h) && h.index == Count(handled, h.track)
    requires handled != [] ==>
        NotAfter(Time(song, handled[|handled| - 1]), handled[|handled| - 1].track, Time(song, h), h.track)
    ensures InOrder(song, handled + [h])
  {
    hide Time, Count;
    var r := handled + [h];
    forall k | 0 <= k < |r| ensures r[k].index == Count(r[..k], r[k].track) {
      assert r[..k] == handled[..k];
      assert handled[..|handled|] == handled;
    }
    forall b | 0 <= b < |r| - 1 ensures NotAfter(Time(song, r[b]), r[b].track, Time(song, h), h.track) {
      assert r[b] == handled[b];
      if b < |handled| - 1 {
        assert NotAfter(Time(song, handled[b]), handled[b].track, Time(song, handled[|handled| - 1]),
            handled[|handled| - 1].track);
      }
    }
  }

  // What the next event leaves behind is in order, and the clock is at its tick.
  lemma AdvanceInOrder(song: Song, s: State, i: nat)
    requires Playing(song, s) && IsNext(song, s, i) && s.pos[i] < |song[i]|
    ensures InOrder(song, Advance(song, s, i).handled)
    ensures Clock(song, Advance(song, s, i)) == Due(song, s, i) == Time(song, Handled(i, s.pos[i]))
  {
    hide Elapsed, Count, InOrder;
    InOrderMembers(song, s.handled);
    var h := Handled(i, s.pos[i]);
    InOrderAppend(song, s.handled, h);
    InOrderMembers(song, s.handled + [h]);
  }

  lemma InOrderMembers(song: Song, handled: seq<Handled>)
    requires InOrder(song, handled)
    ensures forall h | h in handled :: InSong(song, h)
  {}

  lemma {:induction false} HeardMore(events: seq<Timed>, n: nat)
    requires n <= Heard(events) && n < |events| && (n > 0 ==> !IsEnd(events[n - 1].event))
    ensures n < Heard(events)
    ensures IsEnd(events[n].event) ==> n + 1 == Heard(events)
  {
    if n > 0 {
      HeardMore(events[1..], n - 1);
    }
  }

  lemma AdvanceShaped(song: Song, s: State, i: nat)
    requires Shaped(song, s) && i < |song| && !s.ended[i]
    ensures Shaped(song, Advance(song, s, i))
  {
    hide Heard;
    var r := Advance(song, s, i);
    if s.pos[i] < |song[i]| {
      HeardMore(song[i], s.pos[i]);
      forall j | 0 <= j < |song| ensures Count(r.handled, j) == r.pos[j] {
        CountAppend(s.handled, Handled(i, s.pos[i]), j);
      }
    }
  }

  lemma AdvancePlaying(song: Song, s: State, i: nat)
    requires Playing(song, s) && IsNext(song, s, i)
    ensures Playing(song, Advance(song, s, i))
    ensures Clock(song, Advance(song, s, i)) == Due(song, s, i)
  {
    hide Heard, Count, InOrder, Shaped;
    ShapedSizes(song, s);
    InOrderMembers(song, s.handled);
    var r := Advance(song, s, i);
    AdvanceShaped(song, s, i);
    ShapedSizes(song, r);
    NextIsDue(song, s, i);
    if s.pos[i] < |song[i]| {
      AdvanceInOrder(song, s, i);
      InOrderMembers(song, r.handled);
    }
  }

  lemma ShapedSizes(song: Song, s: State)
    requires Shaped(song, s)
    ensures |s.pos| == |s.ended| == |song| && forall i | 0 <= i < |song| :: s.pos[i] <= |song[i]|
  {}

  // ---------- The merge ----------

  // Every event of every track that is heard, each track in its order, by tick, and at the same
  // tick by track.
  ghost predicate IsStableMerge(song: Song, handled: seq<Handled>) {
    InOrder(song, handled) && forall i | 0 <= i < |song| :: Count(handled, i) == Heard(song[i])
  }

  // When no track is left, what was played is the merge.
  lemma AllEnded(song: Song, s: State)
    requires Playing(song, s) && forall i | 0 <= i < |song| :: s.ended[i]
    ensures IsStableMerge(song, s.handled)
  {
    hide Heard, Count, InOrder;
  }

  lemma {:induction false} CountGrows(handled: seq<Handled>, k: nat, track: nat)
    requires k <= |handled|
    ensures Count(handled[..k], track) <= Count(handled, track)
  {
    if k < |handled| {
      CountGrows(handled[..|handled| - 1], k, track);
      assert handled[..|handled| - 1][..k] == handled[..k];
    } else {
      assert handled[..k] == handled;
    }
  }

  lemma CountNext(handled: seq<Handled>, k: nat, track: nat)
    requires k < |handled|
    ensures Count(handled[..k + 1], track) == Count(handled[..k], track) + (if handled[k].track == track then 1 else 0)
  {
    assert handled[..k + 1] == handled[..k] + [handled[k]];
    CountAppend(handled[..k], handled[k], track);
  }

  lemma NotAll(handled: seq<Handled>, k: nat, track: nat)
    requires k <= |handled|
    ensures Count(handled[..k], track) < Count(handled, track) ==> k < |handled|
  {
    if k == |handled| {
      assert handled[..k] == handled;
    }
  }

  // The next event of a track is still to come.
  lemma {:induction false} ComesLater(song: Song, handled: seq<Handled>, k: nat, track: nat) returns (p: nat)
    requires InOrder(song, handled) && k <= |handled| && Count(handled[..k], track) < Count(handled, track)
    ensures k <= p < |handled| && handled[p] == Handled(track, Count(handled[..k], track))
    decreases |handled| - k
  {
    hide Time;
    NotAll(handled, k, track);
    CountNext(handled, k, track);
    if handled[k].track == track {
      p := k;
    } else {
      p := ComesLater(song, handled, k + 1, track);
    }
  }

  lemma SameNext(song: Song, a: seq<Handled>, b: seq<Handled>, k: nat)
    requires IsStableMerge(song, a) && IsStableMerge(song, b) && k < |a| && k <= |b| && a[..k] == b[..k]
    ensures k < |b| && a[k] == b[k]
  {
    hide Time, Heard, Count;
    assert a[k] in a;
    CountNext(a, k, a[k].track);
    CountGrows(a, k + 1, a[k].track);
    var p := ComesLater(song, b, k, a[k].track);
    assert b[k] in b;
    CountNext(b, k, b[k].track);
    CountGrows(b, k + 1, b[k].track);
    var q := ComesLater(song, a, k, b[k].track);
    assert b[p] == a[k] && a[q] == b[k];
  }

  // There is only one stable merge.
  lemma {:induction false} MergeIsUnique(song: Song, a: seq<Handled>, b: seq<Handled>, k: nat)
    requires IsStableMerge(song, a) && IsStableMerge(song, b)
    requires k <= |a| && k <= |b| && a[..k] == b[..k]
    ensures a == b
    decreases |a| - k
  {
    hide IsStableMerge;
    if k < |a| {
      SameNext(song, a, b, k);
      assert a[..k + 1] == a[..k] + [a[k]] == b[..k + 1];
      MergeIsUnique(song, a, b, k + 1);
    } else if k < |b| {
      SameNext(song, b, a, k);
      assert false;
    } else {
      assert a == a[..k] == b[..k] == b;
    }
  }
}
