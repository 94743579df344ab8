// opl_sdl.c: the mixing callback that generates samples up to the next callback of the queue,
// fires what is due, and goes on until the buffer is full.
module OplSdl {
  import opened OplQueue

  const OPL_SECOND: nat := 1_000_000

  // ---------- Microseconds and samples ----------

  // Samples until `us` microseconds have gone by, rounded up.
  function SamplesFor(us: nat, freq: nat): nat {
    (us * freq + OPL_SECOND - 1) / OPL_SECOND
  }

  // Microseconds that samples take, rounded down.
  function MicrosOf(nsamples: nat, freq: nat): nat
    requires freq > 0
  {
    nsamples * OPL_SECOND / freq
  }

  lemma DivBounds(a: nat, b: nat)
    requires b > 0
    ensures a / b * b <= a < (a / b + 1) * b
  {}

  lemma MulKeepsOrder(a: nat, b: nat, c: nat)
    requires a >= b
    ensures a * c >= b * c
  {
    assert a * c == b * c + (a - b) * c;
  }

  lemma MulLess(a: nat, b: nat, c: nat)
    requires a * c < b * c
    ensures a < b
  {
    if a >= b {
      MulKeepsOrder(a, b, c);
    }
  }

  // The samples rounded up always reach the time, and pass it by less than one sample.
  lemma RoundingReaches(us: nat, freq: nat)
    requires freq > 0
    ensures var m := MicrosOf(SamplesFor(us, freq), freq);
            us <= m && (m - us) * freq < OPL_SECOND
  {
    var n := SamplesFor(us, freq);
    var m := MicrosOf(n, freq);
    assert n * OPL_SECOND <= us * freq + OPL_SECOND - 1 < (n + 1) * OPL_SECOND;
    DivBounds(n * OPL_SECOND, freq);
    MulLess(us, m + 1, freq);
    assert (m - us) * freq == m * freq - us * freq;
  }

  // Fewer samples never reach it.
  lemma FewerFallShort(nsamples: nat, us: nat, freq: nat)
    requires freq > 0 && nsamples < SamplesFor(us, freq)
    ensures MicrosOf(nsamples, freq) < us
  {
    var m := MicrosOf(nsamples, freq);
    DivBounds(nsamples * OPL_SECOND, freq);
    MulLess(m, us, freq);
  }

  // ---------- What was fired ----------

  // A callback that was invoked, when the clock without pauses stood at `at`.
  datatype Firing = Firing(entry: Entry, at: nat)

  function Entries(fired: seq<Firing>): seq<Entry> {
    seq(|fired|, i requires 0 <= i < |fired| => fired[i].entry)
  }

  lemma EntriesAppend(fired: seq<Firing>, f: Firing)
    ensures Entries(fired + [f]) == Entries(fired) + [f.entry]
  {}

  // Never too soon, and in the order in which they were due.
  ghost predicate InOrder(fired: seq<Firing>) {
    && (forall i | 0 <= i < |fired| :: fired[i].entry.time <= fired[i].at)
    && (forall i, j | 0 <= i < j < |fired| :: fired[i].entry.time <= fired[j].entry.time)
  }

  function LateBy(f: Firing): int {
    f.at - f.entry.time
  }

  // All that was fired after `was` is not too soon, and late by less than one sample.
  ghost predicate PromptSince(was: seq<Firing>, fired: seq<Firing>, freq: nat) {
    was <= fired && forall i | |was| <= i < |fired| :: LateBy(fired[i]) >= 0 && LateBy(fired[i]) * freq < OPL_SECOND
  }

  // What waits, what was fired and what was accepted, when the clock without pauses stands at `played`.
  ghost predicate Ledger(waiting: multiset<Entry>, fired: seq<Firing>, accepted: multiset<Entry>, played: nat) {
    && InOrder(fired) && (forall f | f in fired :: f.entry.time <= played)
    && (forall f, e | f in fired && e in waiting :: f.entry.time <= e.time)
    && accepted == waiting + multiset(Entries(fired))
  }

  lemma LedgerSet(waiting: multiset<Entry>, fired: seq<Firing>, accepted: multiset<Entry>, played: nat, e: Entry)
    requires Ledger(waiting, fired, accepted, played) && e.time >= played
    ensures Ledger(waiting + multiset{e}, fired, accepted + multiset{e}, played)
  {}

  lemma LedgerFire(waiting: multiset<Entry>, fired: seq<Firing>, accepted: multiset<Entry>, played: nat, e: Entry)
    requires Ledger(waiting, fired, accepted, played) && e in waiting && e.time <= played
    requires forall f | f in waiting :: e.time <= f.time
    ensures Ledger(waiting - multiset{e}, fired + [Firing(e, played)], accepted, played)
  {
    hide Entries;
    EntriesAppend(fired, Firing(e, played));
    assert forall i | 0 <= i < |fired| :: fired[i] in fired;
  }

  lemma LedgerLater(waiting: multiset<Entry>, fired: seq<Firing>, accepted: multiset<Entry>, played: nat, later: nat)
    requires Ledger(waiting, fired, accepted, played) && played <= later
    ensures Ledger(waiting, fired, accepted, later)
  {}

  lemma LedgerRescaled(waiting: multiset<Entry>, later: multiset<Entry>, fired: seq<Firing>, accepted: multiset<Entry>,
                       played: nat)
    requires Ledger(waiting, fired, accepted, played) && forall e | e in later :: e.time >= played
    ensures Ledger(later, fired, later + multiset(Entries(fired)), played)
  {}

  function Min(a: nat, b: nat): nat {
    if a < b then a else b
  }

  // A callback that is due at `earliest` or later is less than one sample late at `played`.
  predicate Near(earliest: nat, played: nat, freq: nat) {
    earliest >= played || (played - earliest) * freq < OPL_SECOND
  }

  // What was fired after `was`: at this moment, and nothing that was due before `earliest`.
  ghost predicate FiredSince(was: seq<Firing>, fired: seq<Firing>, earliest: nat, played: nat) {
    was <= fired && forall i | |was| <= i < |fired| :: fired[i].at == played && fired[i].entry.time >= earliest
  }

  lemma LedgerInOrder(waiting: multiset<Entry>, fired: seq<Firing>, accepted: multiset<Entry>, played: nat)
    requires Ledger(waiting, fired, accepted, played)
    ensures InOrder(fired)
  {}

  lemma PromptStep(was: seq<Firing>, fired: seq<Firing>, earliest: nat, played: nat, freq: nat)
    requires FiredSince(was, fired, Min(earliest, played), played) && InOrder(fired)
    requires Near(earliest, played, freq)
    ensures PromptSince(was, fired, freq)
  {
    forall i | |was| <= i < |fired| ensures LateBy(fired[i]) * freq < OPL_SECOND {
      if earliest < played {
        MulKeepsOrder(played - earliest, LateBy(fired[i]), freq);
      }
    }
  }

  lemma MinPrompt(earliest: nat, played: nat, freq: nat)
    requires Near(earliest, played, freq)
    ensures Near(Min(earliest, played), played, freq)
  {}

  lemma SomeSamples(us: nat, freq: nat)
    requires freq > 0 && SamplesFor(us, freq) == 0
    ensures us == 0
  {
    assert us * freq == 0;
  }

  // ---------- Changing the tempo ----------

  // A delay of r, in a queue whose clock has stood still for `pause`, after the change.
  function NewDelay(r: int, pause: nat, factor: real): int
    requires Converts(r - pause, factor)
  {
    pause + Rescale(r - pause, factor)
  }

  // What every callback still has to wait, before and after.
  predicate AllDelayed(was: seq<Entry>, now: seq<Entry>, played: nat, pause: nat, factor: real)
    requires |now| == |was|
  {
    forall i | 0 <= i < |was| ::
      && now[i].callback == was[i].callback
      && (Converts(was[i].time - played - pause, factor)
          ==> now[i].time - played == NewDelay(was[i].time - played, pause, factor))
  }

  lemma AdjustedDelays(was: seq<Entry>, now: seq<Entry>, played: nat, pause: nat, factor: real)
    requires Adjusted(was, now, played + pause, factor)
    ensures AllDelayed(was, now, played, pause, factor)
  {
    hide Converts, Rescale;
    forall i | 0 <= i < |was|
      ensures now[i].callback == was[i].callback
      ensures Converts(was[i].time - played - pause, factor)
        ==> now[i].time - played == NewDelay(was[i].time - played, pause, factor)
    {
      assert AdjustedEntry(was[i], now[i], played + pause, factor);
      assert was[i].time - (played + pause) == was[i].time - played - pause;
    }
  }

  lemma AdjustedLater(was: seq<Entry>, now: seq<Entry>, time: nat, factor: real)
    requires Adjusted(was, now, time, factor) && AllConvert(was, time, factor)
    ensures forall e | e in multiset(now) :: e.time >= time
  {
    hide Converts, Rescale;
    forall e | e in multiset(now)
      ensures e.time >= time
    {
      var i :| 0 <= i < |now| && now[i] == e;
      assert AdjustedEntry(was[i], now[i], time, factor);
    }
  }

  // The quotient that is meant: r / factor without its fraction, also for a delay that is overdue.
  function Scaled(r: int, factor: real): int
    requires factor > 0.0
  {
    var q: int := Rescale(if r < 0 then -r else r, factor);
    if r < 0 then -q else q
  }

  // What is left of a delay is divided by the factor, without a conversion that C leaves open.
  predicate DelayScales(r: int, pause: nat, factor: real)
    requires factor > 0.0
  {
    Converts(r - pause, factor) && NewDelay(r, pause, factor) == Scaled(r, factor)
  }

  // If the music was never paused, exactly the delays that are overdue by less than the factor are.
  lemma OverdueExactlyWhen(r: int, factor: real)
    requires factor > 0.0
    ensures DelayScales(r, 0, factor) <==> r as real > -factor
  {
    if r as real > -factor && r < 0 {
      assert -r as real / factor < 1.0 by { SmallQuotient(-r as real, factor); }
    }
  }

  lemma SmallQuotient(a: real, factor: real)
    requires 0.0 < a < factor
    ensures 0.0 < a / factor < 1.0
  {
    hide Times;
    QuotientTimes(a, factor);
    TimesGreater(factor, a, 1.0 / factor);
    QuotientTimes(factor, factor);
    TimesGreater(a, 0.0, 1.0 / factor);
    TimesZero(1.0 / factor);
  }

  lemma QuotientTimes(a: real, factor: real)
    requires factor > 0.0
    ensures a / factor == Times(a, 1.0 / factor)
    ensures 1.0 / factor > 0.0
  {}

  lemma TimesZero(a: real)
    ensures Times(0.0, a) == 0.0
  {}

  // All delays to come are rescaled exactly if the music was never paused.
  lemma DelaysScaleExactlyWhen(pause: nat, factor: real)
    requires factor > 0.0
    ensures (forall r: nat :: DelayScales(r, pause, factor)) <==> pause == 0
  {
    if pause == 0 {
      forall r: nat
        ensures DelayScales(r, pause, factor)
      {
        OverdueExactlyWhen(r, factor);
      }
    } else {
      assert Rescale(0, factor) == 0;
      assert !DelayScales(0, pause, factor);
    }
  }

  // Of the delays that are longer than all pauses, all are exactly if there was none, or the tempo
  // stays.
  lemma LongDelaysScaleExactlyWhen(pause: nat, factor: real)
    requires factor > 0.0
    ensures (forall r: nat | r >= pause :: DelayScales(r, pause, factor)) <==> pause == 0 || factor == 1.0
  {
    if pause == 0 || factor == 1.0 {
      forall r: nat | r >= pause
        ensures DelayScales(r, pause, factor)
      {}
    } else if forall r: nat | r >= pause :: DelayScales(r, pause, factor) {
      var gap := 1.0 / factor - 1.0;
      var k := ManySteps(pause, gap);
      SameDelays(k, pause, factor);
      TooFar(k, pause, factor);
      assert false;
    }
  }

  // A callback that is to change the tempo fires up to one sample late, and so may find another one
  // overdue by more than the factor: here by 20 microseconds, at 44100 samples per second.
  lemma TempoChangeCanBeUndefined(factor: real)
    requires 0.0 < factor <= 20.0
    ensures var at := MicrosOf(SamplesFor(1000, 44100), 44100);
      at == 1020 && !Converts(1000 - at, factor)
  {}

  // A change by a factor of a sample or more does not, if the music was never paused.
  lemma OverdueConverts(time: nat, earliest: nat, played: nat, freq: nat, factor: real)
    requires earliest <= time && Near(earliest, played, freq)
    requires freq > 0 && factor * freq as real >= OPL_SECOND as real
    ensures Converts(time - played, factor)
  {
    if time < played {
      MulKeepsOrder(played - earliest, played - time, freq);
    }
    LateByLess((played - time) as real, freq as real, factor);
  }

  lemma LateByLess(late: real, freq: real, factor: real)
    requires freq > 0.0 && factor * freq >= OPL_SECOND as real && late * freq < OPL_SECOND as real
    ensures late < factor && factor > 0.0
  {
    assert (factor - late) * freq > 0.0;
  }

  // So many steps of size `pause` that the gap has grown to one or more.
  function ManySteps(pause: nat, gap: real): nat
    requires pause > 0 && gap != 0.0
  {
    Above(1.0 / (if gap > 0.0 then gap else -gap))
  }

  function Above(x: real): (n: nat)
    ensures n as real > x
  {
    if x < 0.0 then 0 else x.Floor + 1
  }

  lemma {:induction false} SameDelays(k: nat, pause: nat, factor: real)
    requires factor > 0.0
    requires forall r: nat | r >= pause :: DelayScales(r, pause, factor)
    ensures Rescale(k * pause, factor) == k * pause
  {
    if k > 0 {
      SameDelays(k - 1, pause, factor);
      var r: nat := k * pause;
      assert r - pause == (k - 1) * pause >= 0;
      assert DelayScales(r, pause, factor);
    }
  }

  lemma TooFar(k: nat, pause: nat, factor: real)
    requires factor > 0.0 && factor != 1.0 && pause > 0
    requires k == ManySteps(pause, 1.0 / factor - 1.0)
    ensures Rescale(k * pause, factor) != k * pause
  {
    hide Times;
    var gap := 1.0 / factor - 1.0;
    var size := if gap > 0.0 then gap else -gap;
    var n: nat := k * pause;
    MulKeepsOrder(pause, 1, k);
    GapIsNotZero(factor);
    InverseTimes(size);
    TimesGreater(n as real, 1.0 / size, size);
    TimesSign(n as real, gap, size);
    QuotientGap(n as real, factor);
    FloorDiffers(n, n as real / factor, Times(n as real, gap));
  }

  lemma GapIsNotZero(factor: real)
    requires factor > 0.0 && factor != 1.0
    ensures 1.0 / factor != 1.0
  {
    assert 1.0 / factor * factor == 1.0;
  }

  lemma FloorDiffers(n: nat, x: real, gap: real)
    requires x == n as real + gap && (gap > 1.0 || gap < -1.0)
    ensures x.Floor != n
  {}

  function Times(a: real, b: real): real {
    a * b
  }

  lemma InverseTimes(size: real)
    requires size > 0.0
    ensures Times(1.0 / size, size) == 1.0
  {}

  lemma TimesGreater(a: real, b: real, c: real)
    requires a > b && c > 0.0
    ensures Times(a, c) > Times(b, c)
  {}

  lemma TimesSign(a: real, b: real, size: real)
    requires size == if b > 0.0 then b else -b
    ensures Times(a, b) == if b > 0.0 then Times(a, size) else -Times(a, size)
  {}

  lemma QuotientGap(n: real, factor: real)
    requires factor > 0.0
    ensures n / factor == n + Times(n, 1.0 / factor - 1.0)
  {
    assert n / factor == n * (1.0 / factor);
  }

  // If the music was never paused, every delay is divided.
  predicate AllScaled(was: seq<Entry>, now: seq<Entry>, played: nat, factor: real)
    requires |now| == |was| && factor > 0.0
  {
    forall i | 0 <= i < |was| :: now[i].time - played == Scaled(was[i].time - played, factor)
  }

  lemma AllScaledUnpaused(was: seq<Entry>, now: seq<Entry>, played: nat, factor: real)
    requires factor > 0.0 && Adjusted(was, now, played, factor) && AllConvert(was, played, factor)
    ensures AllScaled(was, now, played, factor)
  {
    hide Rescale, Scaled;
    forall i | 0 <= i < |was|
      ensures now[i].time - played == Scaled(was[i].time - played, factor)
    {
      assert AdjustedEntry(was[i], now[i], played, factor);
      OverdueExactlyWhen(was[i].time - played, factor);
    }
  }

  lemma ConvertsIsPositive(was: seq<Entry>, time: nat, factor: real)
    requires AllConvert(was, time, factor) && was != []
    ensures factor > 0.0
  {
    assert Converts(was[0].time - time, factor);
  }

  // What a callback calls: OPL_SetCallback or OPL_AdjustCallbacks.
  datatype Request = Set(callback: int, us: nat) | Adjust(factor: real)

  // The tempo changes only in music that was never paused, and by a sample or more.
  ghost predicate Harmless(requests: seq<Request>, freq: nat, unpaused: bool) {
    forall i | 0 <= i < |requests| && requests[i].Adjust? ::
      unpaused && requests[i].factor * freq as real >= OPL_SECOND as real
  }

  ghost predicate AllHarmless(script: seq<seq<Request>>, freq: nat, unpaused: bool) {
    forall i | 0 <= i < |script| :: Harmless(script[i], freq, unpaused)
  }

  // A mixer at the start of a call of the mixing callback.
  datatype Start = Start(waiting: multiset<Entry>, fired: seq<Firing>, accepted: multiset<Entry>,
                         script: seq<seq<Request>>, time: nat, offset: nat, unpaused: bool)

  // No call changes the tempo.
  ghost predicate SetsOnly(requests: seq<Request>) {
    forall i | 0 <= i < |requests| :: requests[i].Set?
  }

  ghost predicate AllSetsOnly(script: seq<seq<Request>>) {
    forall i | 0 <= i < |script| :: SetsOnly(script[i])
  }

  // What waited either waits still or was fired since.
  lemma NoneIsForgotten(waiting0: multiset<Entry>, fired0: seq<Firing>, accepted0: multiset<Entry>, played0: nat,
                        waiting: multiset<Entry>, fired: seq<Firing>, accepted: multiset<Entry>, played: nat)
    requires Ledger(waiting0, fired0, accepted0, played0) && Ledger(waiting, fired, accepted, played)
    requires fired0 <= fired && accepted0 <= accepted
    ensures waiting0 <= waiting + multiset(Entries(fired[|fired0|..]))
  {
    EntriesJoin(fired0, fired[|fired0|..]);
    assert fired == fired0 + fired[|fired0|..];
    forall e | e in waiting0
      ensures waiting0[e] <= (waiting + multiset(Entries(fired[|fired0|..])))[e]
    {
      assert accepted0[e] == waiting0[e] + multiset(Entries(fired0))[e];
      assert accepted[e] == waiting[e] + multiset(Entries(fired))[e];
    }
  }

  // All of `waiting0` that is due was fired.
  ghost predicate DueFired(waiting0: multiset<Entry>, fired: seq<Firing>, played: nat) {
    forall e | e in waiting0 && e.time <= played :: multiset(Entries(fired))[e] >= waiting0[e]
  }

  lemma NoneIsLeft(waiting0: multiset<Entry>, waiting: multiset<Entry>, fired: seq<Firing>, played: nat)
    requires waiting0 <= waiting + multiset(Entries(fired)) && forall e | e in waiting :: e.time >= played + 1
    ensures DueFired(waiting0, fired, played)
  {
    hide Entries;
    forall e | e in waiting0 && e.time <= played
      ensures multiset(Entries(fired))[e] >= waiting0[e]
    {
      assert waiting[e] == 0;
      assert (waiting + multiset(Entries(fired)))[e] >= waiting0[e];
    }
  }

  lemma PromptTwice(a: seq<Firing>, b: seq<Firing>, c: seq<Firing>, freq: nat)
    requires PromptSince(a, b, freq) && PromptSince(b, c, freq)
    ensures PromptSince(a, c, freq) && a <= b <= c
  {}

  lemma PromptOfItself(a: seq<Firing>, freq: nat)
    ensures PromptSince(a, a, freq)
  {}

  lemma EntriesJoin(a: seq<Firing>, b: seq<Firing>)
    ensures multiset(Entries(a + b)) == multiset(Entries(a)) + multiset(Entries(b))
  {
    assert Entries(a + b) == Entries(a) + Entries(b);
  }

  // How far the clock has moved for so many samples in so many rounds: not beyond their time, and
  // by less than one microsecond short of it for each round.
  predicate Moved(moved: nat, samples: nat, rounds: nat, freq: nat) {
    && moved * freq <= samples * OPL_SECOND <= (moved + rounds) * freq
    && (rounds > 0 ==> samples * OPL_SECOND < (moved + rounds) * freq)
  }

  lemma MovedOn(moved: nat, samples: nat, rounds: nat, freq: nat, nsamples: nat)
    requires freq > 0 && Moved(moved, samples, rounds, freq)
    ensures Moved(moved + MicrosOf(nsamples, freq), samples + nsamples, rounds + 1, freq)
  {
    var us := MicrosOf(nsamples, freq);
    DivBounds(nsamples * OPL_SECOND, freq);
    Distribute(moved, us, freq);
    Distribute(moved + rounds, us + 1, freq);
    assert moved + us + (rounds + 1) == (moved + rounds) + (us + 1);
  }

  lemma Distribute(a: nat, b: nat, c: nat)
    ensures (a + b) * c == a * c + b * c
  {}

  class Mixer {
    const queue: Queue
    const mixingFreq: nat
    var currentTime: nat
    var paused: bool
    var pauseOffset: nat
    var script: seq<seq<Request>>       // what the next invocations of callbacks will do, and then nothing
    var undefined: bool                 // a conversion was undefined; what comes after it is not followed
    ghost var accepted: multiset<Entry> // every callback that found room in the queue, at its present time
    ghost var fired: seq<Firing>
    ghost var generated: nat            // samples

    constructor (mixingFreq: nat, script: seq<seq<Request>>)
      requires mixingFreq > 0
      ensures Valid() && fresh(queue) && fresh(queue.entries) && this.mixingFreq == mixingFreq && fired == []
    {
      this.mixingFreq, this.script := mixingFreq, script;
      queue := new Queue();
      currentTime, paused, pauseOffset, undefined := 0, false, 0, false;
      accepted, fired, generated := multiset{}, [], 0;
    }

    // The clock without pauses.
    function Played(): nat
      requires pauseOffset <= currentTime
      reads this`currentTime, this`pauseOffset
    {
      currentTime - pauseOffset
    }

    ghost predicate Consistent()
      reads this`currentTime, this`pauseOffset, this`undefined, this`fired, this`accepted, queue, queue.entries
    {
      && mixingFreq > 0 && queue.Valid() && pauseOffset <= currentTime && !undefined
      && Ledger(queue.Contents(), fired, accepted, Played())
    }

    ghost predicate NoneBefore(time: nat)
      requires queue.Valid()
      reads queue, queue.entries
    {
      forall e | e in queue.Contents() :: e.time >= time
    }

    // Nothing that waits is overdue.
    ghost predicate Valid()
      reads this`currentTime, this`pauseOffset, this`undefined, this`fired, this`accepted, queue, queue.entries
    {
      Consistent() && NoneBefore(Played())
    }

    // Nothing that waits since `earliest` can make a change of the tempo undefined.
    ghost predicate Safe(earliest: nat, unpaused: bool)
      requires pauseOffset <= currentTime
      reads this`currentTime, this`pauseOffset, this`script
    {
      && earliest <= Played() && Near(earliest, Played(), mixingFreq)
      && AllHarmless(script, mixingFreq, unpaused) && (unpaused ==> pauseOffset == 0)
    }

    // OPL_SDL_SetPaused
    method SetPaused(paused: bool)
      requires Valid()
      modifies this`paused
      ensures Valid() && this.paused == paused
    {
      this.paused := paused;
    }

    // OPL_SDL_SetCallback
    method SetCallback(us: nat, callback: int)
      requires Consistent()
      modifies queue`numEntries, queue.entries, this`accepted
      ensures Consistent() && old(accepted) <= accepted
      ensures queue.Contents() == old(queue.Contents())
          + (if |old(queue.Contents())| < MAX_OPL_QUEUE then multiset{Entry(callback, Played() + us)} else multiset{})
    {
      hide Ledger, IsHeap;
      ghost var was := queue.Contents();
      LedgerSet(was, fired, accepted, Played(), Entry(callback, Played() + us));
      queue.Push(callback, currentTime - pauseOffset + us);
      assert was + multiset{} == was;
      if |was| < MAX_OPL_QUEUE {
        accepted := accepted + multiset{Entry(callback, Played() + us)};
      }
    }

    // OPL_SDL_AdjustCallbacks: the driver passes the clock that goes on during pauses, although
    // the queue holds times of the other one.  Callbacks may be overdue, because it is called while
    // others are fired.
    method AdjustCallbacks(factor: real)
      requires Consistent()
      modifies queue.entries, this`accepted, this`undefined
      ensures undefined == !AllConvert(old(queue.entries[..queue.numEntries]), currentTime, factor)
      ensures !undefined ==> Consistent() && NoneBefore(currentTime)
      ensures var was, now := old(queue.entries[..queue.numEntries]), queue.entries[..queue.numEntries];
        && |now| == |was| && AllDelayed(was, now, Played(), pauseOffset, factor)
        && (!undefined && was != [] ==> factor > 0.0 && (pauseOffset == 0 ==> AllScaled(was, now, Played(), factor)))
    {
      hide Ledger, IsHeap, Converts, Adjusted, AllDelayed, AllConvert, AllScaled, Entries;
      ghost var was := queue.entries[..queue.numEntries];
      ghost var waiting, played := queue.Contents(), Played();
      var defined := queue.AdjustCallbacks(currentTime, factor);
      ghost var now := queue.entries[..queue.numEntries];
      AdjustedDelays(was, now, played, pauseOffset, factor);
      undefined := !defined;
      if defined {
        AdjustedLater(was, now, currentTime, factor);
        LedgerRescaled(waiting, queue.Contents(), fired, accepted, played);
        accepted := queue.Contents() + multiset(Entries(fired));
        if was != [] {
          ConvertsIsPositive(was, currentTime, factor);
          if pauseOffset == 0 { AllScaledUnpaused(was, now, played, factor); }
        }
      }
    }

    lemma SafeConverts(requests: seq<Request>, i: nat, earliest: nat, unpaused: bool)
      requires Consistent() && NoneBefore(earliest)
      requires earliest <= Played() && Near(earliest, Played(), mixingFreq)
      requires Harmless(requests, mixingFreq, unpaused) && (unpaused ==> pauseOffset == 0)
      requires i < |requests| && requests[i].Adjust?
      ensures AllConvert(queue.entries[..queue.numEntries], currentTime, requests[i].factor)
    {
      hide Ledger, IsHeap, Converts;
      var entries := queue.entries[..queue.numEntries];
      forall k | 0 <= k < |entries|
        ensures Converts(entries[k].time - currentTime, requests[i].factor)
      {
        assert entries[k] in queue.Contents();
        OverdueConverts(entries[k].time, earliest, Played(), mixingFreq, requests[i].factor);
      }
    }

    // One call that a callback makes.
    method Call(requests: seq<Request>, i: nat, ghost earliest: nat, ghost unpaused: bool)
      requires Consistent() && NoneBefore(earliest) && earliest <= Played() && i < |requests|
      modifies queue`numEntries, queue.entries, this`accepted, this`undefined
      ensures undefined || (Consistent() && NoneBefore(earliest))
      ensures requests[i].Set? ==> !undefined && old(accepted) <= accepted
      ensures Near(earliest, Played(), mixingFreq) && Harmless(requests, mixingFreq, unpaused)
        && (unpaused ==> pauseOffset == 0)
        ==> !undefined
    {
      hide Ledger, IsHeap, Harmless, AllConvert, AllDelayed, AllScaled, Near;
      match requests[i] {
        case Set(callback, us) =>
          SetCallback(us, callback);
        case Adjust(factor) =>
          if Near(earliest, Played(), mixingFreq) && Harmless(requests, mixingFreq, unpaused)
             && (unpaused ==> pauseOffset == 0) {
            SafeConverts(requests, i, earliest, unpaused);
          }
          AdjustCallbacks(factor);
      }
    }

    // Invokes a callback: whatever the script has for it.
    method Invoke(ghost earliest: nat, ghost unpaused: bool)
      requires Consistent() && NoneBefore(earliest) && earliest <= Played()
      modifies queue`numEntries, queue.entries, this`accepted, this`script, this`undefined
      ensures undefined || (Consistent() && NoneBefore(earliest))
      ensures script == (if old(script) == [] then [] else old(script)[1..])
      ensures old(script) == [] ==> !undefined && queue.Contents() == old(queue.Contents())
      ensures AllSetsOnly(old(script)) ==> !undefined && old(accepted) <= accepted && AllSetsOnly(script)
      ensures old(Safe(earliest, unpaused)) ==> !undefined && Safe(earliest, unpaused)
    {
      hide Ledger, IsHeap, Harmless, Mixer.NoneBefore, Near;
      if script == [] {
        return;
      }
      var requests := script[0];
      script := script[1..];
      var i := 0;
      while i < |requests|
        invariant 0 <= i <= |requests| && Consistent() && NoneBefore(earliest)
        invariant script == old(script)[1..]
        invariant SetsOnly(requests) ==> old(accepted) <= accepted
      {
        Call(requests, i, earliest, unpaused);
        if undefined {
          return;
        }
        i := i + 1;
      }
    }

    // Takes the callback that is due first out of the queue.
    method TakeFirst(ghost earliest: nat) returns (ghost e: Entry)
      requires Consistent() && NoneBefore(earliest) && queue.numEntries > 0 && queue.Peek() <= Played()
      modifies queue`numEntries, queue.entries, this`fired
      ensures Consistent() && e in old(queue.Contents()) && queue.Contents() == old(queue.Contents()) - multiset{e}
      ensures fired == old(fired) + [Firing(e, Played())] && InOrder(fired)
      ensures NoneBefore(earliest) && e.time >= earliest && |queue.Contents()| < |old(queue.Contents())|
    {
      hide Ledger, IsHeap, InOrder, Entries;
      ghost var waiting := queue.Contents();
      var found, callback;
      found, e, callback := queue.Pop();
      LedgerFire(waiting, fired, accepted, Played(), e);
      fired := fired + [Firing(e, Played())];
      LedgerInOrder(queue.Contents(), fired, accepted, Played());
    }

    // Fires it.
    method FireOne(ghost earliest: nat, ghost unpaused: bool)
      requires Consistent() && NoneBefore(earliest) && earliest <= Played()
      requires queue.numEntries > 0 && queue.Peek() <= Played()
      modifies queue`numEntries, queue.entries, this`accepted, this`script, this`fired, this`undefined
      ensures undefined || (Consistent() && NoneBefore(earliest) && Shorter(old(script), old(|queue.Contents()|)))
      ensures |fired| == |old(fired)| + 1 && FiredSince(old(fired), fired, earliest, Played()) && InOrder(fired)
      ensures AllSetsOnly(old(script)) ==> !undefined && old(accepted) <= accepted && AllSetsOnly(script)
      ensures old(Safe(earliest, unpaused)) ==> !undefined && Safe(earliest, unpaused)
    {
      hide Ledger, IsHeap, AllHarmless, InOrder, Mixer.NoneBefore, Mixer.Safe;
      ghost var e := TakeFirst(earliest);
      Invoke(earliest, unpaused);
    }

    // A callback has used up a part of the script, or one of the queue.
    ghost predicate Shorter(was: seq<seq<Request>>, waiting: nat)
      requires queue.Valid()
      reads this`script, queue, queue.entries
    {
      |script| < |was| || (script == was == [] && |queue.Contents()| < waiting)
    }

    // Some callback was fired, or nothing has changed.
    ghost predicate Progress(wasFired: seq<Firing>, wasScript: seq<seq<Request>>, waiting: multiset<Entry>)
      requires queue.Valid()
      reads this`script, this`fired, queue, queue.entries
    {
      if fired == wasFired then queue.Contents() == waiting && script == wasScript
      else Shorter(wasScript, |waiting|)
    }

    // The part of AdvanceTime that fires what is due.
    method FireDue(ghost earliest: nat, ghost unpaused: bool)
      requires Consistent() && NoneBefore(earliest) && earliest <= Played()
      modifies queue`numEntries, queue.entries, this`accepted, this`script, this`fired, this`undefined
      ensures undefined
        || (Consistent() && NoneBefore(Played() + 1) && Progress(old(fired), old(script), old(queue.Contents())))
      ensures FiredSince(old(fired), fired, earliest, Played()) && InOrder(fired)
      ensures AllSetsOnly(old(script)) ==> !undefined && old(accepted) <= accepted && AllSetsOnly(script)
      ensures old(Safe(earliest, unpaused)) ==> !undefined && Safe(earliest, unpaused)
    {
      hide Ledger, IsHeap, AllHarmless, InOrder, Near;
      LedgerInOrder(queue.Contents(), fired, accepted, Played());
      while queue.numEntries > 0 && currentTime >= queue.Peek() + pauseOffset
        invariant Consistent() && FiredSince(old(fired), fired, earliest, Played()) && InOrder(fired)
        invariant NoneBefore(earliest) && Progress(old(fired), old(script), old(queue.Contents()))
        invariant old(Safe(earliest, unpaused)) ==> Safe(earliest, unpaused)
        invariant AllSetsOnly(old(script)) ==> old(accepted) <= accepted && AllSetsOnly(script)
        decreases |script|, |queue.Contents()|
      {
        FireOne(earliest, unpaused);
        if undefined {
          return;
        }
      }
      assert forall e | e in queue.Contents() :: queue.Peek() <= e.time;
    }

    // AdvanceTime
    method AdvanceTime(nsamples: nat, ghost earliest: nat, ghost unpaused: bool)
      requires Valid() && NoneBefore(earliest) && (unpaused ==> !paused && pauseOffset == 0)
      modifies queue`numEntries, queue.entries, this`accepted, this`script, this`fired, this`currentTime,
               this`pauseOffset, this`undefined
      ensures pauseOffset <= currentTime == old(currentTime) + MicrosOf(nsamples, mixingFreq)
      ensures pauseOffset == old(pauseOffset) + (if paused then MicrosOf(nsamples, mixingFreq) else 0)
      ensures undefined
        || (Valid() && NoneBefore(Played() + 1) && Progress(old(fired), old(script), old(queue.Contents())))
      ensures FiredSince(old(fired), fired, Min(earliest, Played()), Played()) && InOrder(fired)
      ensures AllSetsOnly(old(script)) ==> !undefined && old(accepted) <= accepted && AllSetsOnly(script)
      ensures Near(Min(earliest, Played()), Played(), mixingFreq)
        && AllHarmless(old(script), mixingFreq, unpaused)
        ==> !undefined && AllHarmless(script, mixingFreq, unpaused)
    {
      hide Ledger, IsHeap, MicrosOf, AllHarmless, InOrder, Near;
      var us := MicrosOf(nsamples, mixingFreq);
      LedgerLater(queue.Contents(), fired, accepted, Played(), Played() + (if paused then 0 else us));
      currentTime := currentTime + us;
      if paused {
        pauseOffset := pauseOffset + us;
      }
      FireDue(Min(earliest, Played()), unpaused);
    }

    // How many samples to generate before the next callback, at most `room`.  `earliest` is when
    // a callback can be due.
    method NextSamples(room: nat) returns (nsamples: nat, ghost earliest: nat)
      requires Valid()
      ensures nsamples <= room && forall e | e in queue.Contents() :: e.time >= earliest
      ensures var later := Played() + (if paused then 0 else MicrosOf(nsamples, mixingFreq));
              Near(earliest, later, mixingFreq)
      ensures nsamples < room ==>
        !paused && exists e :: e in queue.Contents() && e.time <= Played() + MicrosOf(nsamples, mixingFreq)
    {
      hide Ledger, IsHeap, SamplesFor, MicrosOf;
      if paused || queue.numEntries == 0 {
        nsamples := room;
        earliest := Played() + (if paused then 0 else MicrosOf(nsamples, mixingFreq));
      } else {
        var nextCallbackTime := queue.Peek() + pauseOffset;
        earliest := queue.Peek();
        nsamples := SamplesFor(nextCallbackTime - currentTime, mixingFreq);
        RoundingReaches(nextCallbackTime - currentTime, mixingFreq);
        if nsamples == 0 {
          SomeSamples(nextCallbackTime - currentTime, mixingFreq);
        }
        if nsamples > room {
          nsamples := room;
          FewerFallShort(nsamples, nextCallbackTime - currentTime, mixingFreq);
        }
      }
    }

    // One round of OPL_Mix_Callback: it adds samples, and fires a callback unless the buffer is full.
    method MixSome(room: nat, ghost unpaused: bool) returns (nsamples: nat)
      requires Valid() && room > 0 && (unpaused ==> !paused && pauseOffset == 0)
      modifies queue`numEntries, queue.entries, this`accepted, this`script, this`fired, this`currentTime,
               this`pauseOffset, this`generated, this`undefined
      ensures nsamples <= room && generated == old(generated) + nsamples && PromptSince(old(fired), fired, mixingFreq)
      ensures pauseOffset <= currentTime == old(currentTime) + MicrosOf(nsamples, mixingFreq)
      ensures pauseOffset == old(pauseOffset) + (if paused then MicrosOf(nsamples, mixingFreq) else 0)
      ensures undefined || (Valid() && NoneBefore(Played() + 1)
        && (nsamples < room ==> |fired| > |old(fired)| && Shorter(old(script), old(|queue.Contents()|))))
      ensures AllSetsOnly(old(script)) ==> !undefined && old(accepted) <= accepted && AllSetsOnly(script)
      ensures AllHarmless(old(script), mixingFreq, unpaused)
        ==> !undefined && AllHarmless(script, mixingFreq, unpaused)
    {
      hide Ledger, IsHeap, MicrosOf, FiredSince, Min, AllHarmless, InOrder, Near, AllSetsOnly;
      ghost var earliest;
      nsamples, earliest := NextSamples(room);
      generated := generated + nsamples;   // FillBuffer
      MinPrompt(earliest, Played() + (if paused then 0 else MicrosOf(nsamples, mixingFreq)), mixingFreq);
      AdvanceTime(nsamples, earliest, unpaused);
      PromptStep(old(fired), fired, earliest, Played(), mixingFreq);
      FiredMore(old(fired), fired, earliest, Played());
    }

    // The mixer as it was at the start of a call.
    ghost function Snapshot(): Start
      requires queue.Valid()
      reads this, queue, queue.entries
    {
      Start(queue.Contents(), fired, accepted, script, currentTime, pauseOffset, !paused && pauseOffset == 0)
    }

    // What is so after `filled` samples in so many rounds; if it is not `full`, each has fired.
    ghost predicate SoFar(s: Start, filled: nat, rounds: nat, full: bool)
      requires queue.Valid() && pauseOffset <= currentTime
      reads this, queue, queue.entries
    {
      && PromptSince(s.fired, fired, mixingFreq)
      && s.time <= currentTime && Moved(currentTime - s.time, filled, rounds, mixingFreq)
      && rounds <= |fired| - |s.fired| + (if full then 1 else 0)
      && (rounds > 0 ==> NoneBefore(Played() + 1))
      && pauseOffset - s.offset == (if paused then currentTime - s.time else 0)
      && (s.unpaused ==> !paused && pauseOffset == 0)
      && (AllSetsOnly(s.script) ==> s.accepted <= accepted && AllSetsOnly(script))
      && (AllHarmless(s.script, mixingFreq, s.unpaused) ==> AllHarmless(script, mixingFreq, s.unpaused))
    }

    lemma NothingYet(full: bool)
      requires Valid()
      ensures SoFar(Snapshot(), 0, 0, full)
    {
      hide Ledger, IsHeap, AllHarmless, AllSetsOnly;
    }

    // One round, in the account of the whole call.
    method MixRound(ghost s: Start, ghost filled: nat, room: nat, ghost rounds: nat) returns (nsamples: nat)
      requires Valid() && room > 0 && SoFar(s, filled, rounds, false)
      modifies queue`numEntries, queue.entries, this`accepted, this`script, this`fired, this`currentTime,
               this`pauseOffset, this`generated, this`undefined
      ensures nsamples <= room && generated == old(generated) + nsamples
      ensures undefined || (Valid() && SoFar(s, filled + nsamples, rounds + 1, nsamples == room)
        && (nsamples < room ==> Shorter(old(script), old(|queue.Contents()|))))
      ensures pauseOffset <= currentTime && PromptSince(s.fired, fired, mixingFreq) && s.time <= currentTime
      ensures pauseOffset - s.offset == if paused then currentTime - s.time else 0
      ensures AllSetsOnly(s.script) || AllHarmless(s.script, mixingFreq, s.unpaused) ==> !undefined
    {
      hide Ledger, IsHeap, MicrosOf, AllHarmless, AllSetsOnly, Moved, PromptSince, Mixer.NoneBefore;
      ghost var before, firedBefore := currentTime, fired;
      nsamples := MixSome(room, s.unpaused);
      PromptTwice(s.fired, firedBefore, fired, mixingFreq);
      MovedOn(before - s.time, filled, rounds, mixingFreq, nsamples);
    }

    // OPL_Mix_Callback: fills the buffer exactly, and fires every callback within one sample
    // of its time, whatever the callbacks set and adjust, up to an adjustment that is undefined.
    // There is none if the tempo changes only in music that was never paused, and by a sample or
    // more.  Every round but the last one fires a callback.  If the tempo does not change, every
    // callback that has become due is fired.
    method MixCallback(len: nat) returns (ghost rounds: nat)
      requires Valid() && len / 4 < mixingFreq
      modifies queue`numEntries, queue.entries, this`accepted, this`script, this`fired, this`currentTime,
               this`pauseOffset, this`generated, this`undefined
      ensures undefined || (Valid() && generated == old(generated) + len / 4)
      ensures PromptSince(old(fired), fired, mixingFreq) && old(fired) <= fired
      ensures old(currentTime) <= currentTime
      ensures !undefined ==>
        Moved(currentTime - old(currentTime), len / 4, rounds, mixingFreq) && rounds <= 1 + |fired| - |old(fired)|
      ensures pauseOffset <= currentTime
      ensures pauseOffset - old(pauseOffset) == if paused then currentTime - old(currentTime) else 0
      ensures AllSetsOnly(old(script)) ==>
        && !undefined && old(queue.Contents()) <= queue.Contents() + multiset(Entries(fired[|old(fired)|..]))
        && (len >= 4 ==> DueFired(old(queue.Contents()), fired[|old(fired)|..], Played()))
      ensures AllHarmless(old(script), mixingFreq, !paused && old(pauseOffset) == 0) ==> !undefined
    {
      hide Ledger, IsHeap, Mixer.SoFar, AllSetsOnly, AllHarmless, Moved, PromptSince, Entries, DueFired;
      hide Mixer.NoneBefore, Mixer.Played;
      ghost var s := Snapshot();
      var filled, bufferSamples := 0, len / 4;
      rounds := 0;
      NothingYet(bufferSamples == 0);
      Opened(s, 0, 0, bufferSamples == 0);
      while filled < bufferSamples
        invariant filled <= bufferSamples && Valid() && generated == old(generated) + filled
        invariant SoFar(s, filled, rounds, filled == bufferSamples) && (filled > 0 ==> rounds > 0)
        decreases bufferSamples - filled, |script|, |queue.Contents()|
      {
        var nsamples := MixRound(s, filled, bufferSamples - filled, rounds);
        if undefined {
          PromptIsLonger(s.fired, fired, mixingFreq);
          return;
        }
        filled := filled + nsamples;
        rounds := rounds + 1;
      }
      Opened(s, filled, rounds, true);
      if AllSetsOnly(s.script) {
        AllDueAreFired(s, rounds);
      }
    }

    // What SoFar says, for the whole call.
    lemma Opened(s: Start, filled: nat, rounds: nat, full: bool)
      requires Valid() && SoFar(s, filled, rounds, full)
      ensures PromptSince(s.fired, fired, mixingFreq) && s.fired <= fired && s.time <= currentTime
      ensures Moved(currentTime - s.time, filled, rounds, mixingFreq) && rounds <= |fired| - |s.fired| + 1
      ensures pauseOffset - s.offset == if paused then currentTime - s.time else 0
      ensures AllSetsOnly(s.script) ==> s.accepted <= accepted
      ensures rounds > 0 ==> NoneBefore(Played() + 1)
    {
      hide Ledger, IsHeap, AllSetsOnly, AllHarmless, Moved, Mixer.NoneBefore;
    }

    lemma AllDueAreFired(s: Start, rounds: nat)
      requires Valid() && s.fired <= fired && s.accepted <= accepted
      requires exists played: nat :: Ledger(s.waiting, s.fired, s.accepted, played)
      requires rounds > 0 ==> NoneBefore(Played() + 1)
      ensures s.waiting <= queue.Contents() + multiset(Entries(fired[|s.fired|..]))
      ensures rounds > 0 ==> DueFired(s.waiting, fired[|s.fired|..], Played())
    {
      hide Ledger, IsHeap, Entries, DueFired;
      var played: nat :| Ledger(s.waiting, s.fired, s.accepted, played);
      NoneIsForgotten(s.waiting, s.fired, s.accepted, played, queue.Contents(), fired, accepted, Played());
      if rounds > 0 { NoneIsLeft(s.waiting, queue.Contents(), fired[|s.fired|..], Played()); }
    }
  }

  lemma PromptIsLonger(was: seq<Firing>, fired: seq<Firing>, freq: nat)
    requires PromptSince(was, fired, freq)
    ensures was <= fired
  {}

  lemma NotMoved(freq: nat)
    ensures Moved(0, 0, 0, freq)
  {}

  lemma FiredMore(was: seq<Firing>, fired: seq<Firing>, earliest: nat, played: nat)
    requires FiredSince(was, fired, Min(earliest, played), played)
    ensures was <= fired && (fired != was ==> |fired| > |was|)
  {}
}
