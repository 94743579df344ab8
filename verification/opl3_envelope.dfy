// opl3.c: the envelope of an operator, one step for each sample.
module Opl3Envelope {
  import Opl3Wave

  datatype Stage = Attack | Decay | Sustain | Release

  // What the registers of an operator and of its channel say.
  datatype Registers = Registers(
    attackRate: nat, decayRate: nat, releaseRate: nat,   // four bits each
    sustainLevel: nat,                                   // 0 to 14, and 31 for the register value 15
    totalLevel: nat, kslShift: nat, sustained: bool, ksr: bool, ksv: nat)

  ghost predicate InRange(r: Registers) {
    && r.attackRate < 16 && r.decayRate < 16 && r.releaseRate < 16 && (r.sustainLevel < 15 || r.sustainLevel == 31)
    && r.totalLevel < 64 && r.kslShift < 4 && r.ksv < 16
  }

  // The clocks of the chip that envelopes depend on.
  datatype Clock = Clock(egState: bool, egAdd: nat, timer: nat, egTimer: nat, egTimerRem: bool)

  // ---------- The rate of a step ----------

  function RegRate(regs: Registers, stage: Stage, reset: bool): nat {
    if reset then regs.attackRate else
    match stage
    case Attack => regs.attackRate
    case Decay => regs.decayRate
    case Sustain => if regs.sustained then 0 else regs.releaseRate
    case Release => regs.releaseRate
  }

  // The register rate with the key scaling added; only the last two bits matter from 64 on.
  function Rate(regs: Registers, regRate: nat): nat {
    (if regs.ksr then regs.ksv else regs.ksv / 4) + 4 * regRate
  }

  function RateHi(rate: nat): nat {
    if rate / 4 >= 16 then 15 else rate / 4
  }

  // eg_incstep
  function IncStep(rateLo: nat, step: nat): nat {
    if rateLo == 0 then 0
    else if rateLo == 1 then (if step == 0 then 1 else 0)
    else if rateLo == 2 then (if step == 0 || step == 2 then 1 else 0)
    else if step == 3 then 0 else 1
  }

  // Over four samples the low bits of a rate add up to themselves.
  lemma IncStepsAverage(rateLo: nat)
    requires rateLo < 4
    ensures IncStep(rateLo, 0) + IncStep(rateLo, 1) + IncStep(rateLo, 2) + IncStep(rateLo, 3) == rateLo
  {}

  // How fast the envelope moves in this step; 0 is not at all.
  function Shift(regRate: nat, rate: nat, clock: Clock): (shift: nat)
    ensures shift <= 3
  {
    var hi, lo := RateHi(rate), rate % 4;
    if regRate == 0 then 0
    else if hi < 12 then
      if !clock.egState then 0
      else if hi + clock.egAdd == 12 then 1
      else if hi + clock.egAdd == 13 then lo / 2
      else if hi + clock.egAdd == 14 then lo % 2
      else 0
    else
      var s := hi % 4 + IncStep(lo, clock.timer % 4);
      if s >= 4 then 3 else if s == 0 then (if clock.egState then 1 else 0) else s
  }

  function Pow2(k: nat): nat {
    if k == 0 then 1 else 2 * Pow2(k - 1)
  }

  // x >> 4, which rounds down
  function Shr4(x: int): int {
    x / 16
  }

  // ---------- The level ----------

  // eg_rout after a step, before the last mask.  0 is full volume, 511 is silence.
  function NextLevel(stage: Stage, level: int, key: bool, hi: nat, shift: nat, sustainLevel: nat): int {
    var reset := key && stage == Release;
    var off := level >= 504;
    if reset then (if hi == 15 then 0 else level)
    else
      match stage
      case Attack =>
        if level != 0 && key && shift > 0 && hi != 15 then level + Shr4((-level - 1) * Pow2(shift)) else level
      case Decay =>
        if off then 511
        else if level / 16 != sustainLevel && shift > 0 then level + Pow2(shift - 1) else level
      case Sustain => if off then 511 else if shift > 0 then level + Pow2(shift - 1) else level
      case Release => if off then 511 else if shift > 0 then level + Pow2(shift - 1) else level
  }

  function NextStage(stage: Stage, level: int, key: bool, sustainLevel: nat): Stage {
    if !key then Release
    else
      match stage
      case Attack => if level == 0 then Decay else Attack
      case Decay => if level / 16 == sustainLevel then Sustain else Decay
      case Sustain => Sustain
      case Release => Attack
  }

  lemma SmallPowers()
    ensures Pow2(0) == 1 && Pow2(1) == 2 && Pow2(2) == 4 && Pow2(3) == 8
  {
    assert Pow2(2) == 2 * Pow2(1);
  }

  // The level never leaves nine bits, so the mask discards nothing.
  lemma LevelInRange(stage: Stage, level: int, key: bool, hi: nat, shift: nat, sustainLevel: nat)
    requires 0 <= level <= 511 && shift <= 3
    ensures 0 <= NextLevel(stage, level, key, hi, shift, sustainLevel) <= 511
  {
    SmallPowers();
  }

  // An attack only gets louder, and strictly so in every step that is active.
  lemma AttackFalls(level: int, key: bool, hi: nat, shift: nat, sustainLevel: nat)
    requires 0 <= level <= 511 && shift <= 3
    ensures NextLevel(Attack, level, key, hi, shift, sustainLevel) <= level
    ensures NextLevel(Attack, level, key, hi, shift, sustainLevel) < level
        <==> level > 0 && key && shift > 0 && hi != 15
  {
    SmallPowers();
  }

  // The other stages only get quieter, and from 504 on they go to silence at once.
  lemma OthersRise(stage: Stage, level: int, key: bool, hi: nat, shift: nat, sustainLevel: nat)
    requires 0 <= level <= 511 && shift <= 3 && stage != Attack && !(key && stage == Release)
    ensures level <= NextLevel(stage, level, key, hi, shift, sustainLevel)
    ensures level >= 504 ==> NextLevel(stage, level, key, hi, shift, sustainLevel) == 511
    ensures level < 504 ==> (level < NextLevel(stage, level, key, hi, shift, sustainLevel)
                             <==> shift > 0 && (stage == Decay ==> level / 16 != sustainLevel))
  {
    SmallPowers();
  }

  // ---------- The clock ----------

  const EG_TIMER: nat := 0x10_0000_0000   // 36 bits

  function TrailingZeros(t: nat): nat
    requires t > 0
  {
    if t % 2 == 1 then 0 else 1 + TrailingZeros(t / 2)
  }

  function EgAdd(egTimer: nat): nat {
    if egTimer == 0 || TrailingZeros(egTimer) > 12 then 0 else TrailingZeros(egTimer) + 1
  }

  // What OPL3_Generate does to the clock at the end of a sample.
  function Tick(c: Clock): Clock {
    var moves := c.egTimerRem || c.egState;
    var wraps := moves && c.egTimer == EG_TIMER - 1;
    Clock(!c.egState, EgAdd(c.egTimer), (c.timer + 1) % 0x1_0000,
          if wraps then 0 else if moves then c.egTimer + 1 else c.egTimer,
          if moves then wraps else c.egTimerRem)
  }

  function ClockAt(c: Clock, n: nat): Clock {
    if n == 0 then c else Tick(ClockAt(c, n - 1))
  }

  // In every sample in which the state is set, egAdd belongs to the timer, but for the one that
  // follows an overflow of the timer.
  predicate Synchronous(c: Clock) {
    && c.egTimer < EG_TIMER
    && (c.egTimerRem ==> !c.egState && c.egTimer == 0)
    && (c.egState ==> c.egAdd == EgAdd(c.egTimer) || (c.egTimer == 1 && c.egAdd == 0))
  }

  lemma {:induction false} ClockStaysSynchronous(c: Clock, n: nat)
    requires Synchronous(c)
    ensures Synchronous(ClockAt(c, n))
  {
    hide EgAdd;
    if n > 0 {
      ClockStaysSynchronous(c, n - 1);
      NothingAdded();
    }
  }

  lemma NothingAdded()
    ensures EgAdd(0) == 0
  {}

  lemma {:induction false} ClockJoin(c: Clock, m: nat, n: nat)
    ensures ClockAt(ClockAt(c, m), n) == ClockAt(c, m + n)
  {
    hide Tick;
    if n > 0 { ClockJoin(c, m, n - 1); }
  }

  // Two samples move the timer by one, up to its overflow.
  lemma {:induction false} TimerMoves(c: Clock, m: nat)
    requires Synchronous(c) && c.egState && c.egTimer + m < EG_TIMER
    ensures var d := ClockAt(c, 2 * m);
      Synchronous(d) && d.egState && d.egTimer == c.egTimer + m && (m > 0 ==> d.egAdd == EgAdd(d.egTimer))
  {
    hide EgAdd;
    ClockStaysSynchronous(c, 2 * m);
    if m > 0 {
      TimerMoves(c, m - 1);
      var d := ClockAt(c, 2 * (m - 1));
      assert ClockAt(c, 2 * m - 1) == Tick(d);
      assert ClockAt(c, 2 * m) == Tick(Tick(d));
    }
  }

  // Every number of trailing zeros comes up soon.
  lemma {:induction false} ZerosComeUp(t: nat, k: nat) returns (d: nat)
    requires t > 0
    ensures d < Pow2(k + 1) && TrailingZeros(t + d) == k
  {
    hide TrailingZeros;
    if k == 0 {
      d := if t % 2 == 1 then 0 else 1;
      OddHasNone(t + d);
    } else {
      var half := (t + 1) / 2;
      var e := ZerosComeUp(half, k - 1);
      d := 2 * (half + e) - t;
      DoubleHasOneMore(half + e);
    }
  }

  lemma OddHasNone(t: nat)
    requires t % 2 == 1
    ensures TrailingZeros(t) == 0
  {}

  lemma DoubleHasOneMore(t: nat)
    requires t > 0
    ensures TrailingZeros(2 * t) == 1 + TrailingZeros(t)
  {
    assert 2 * t % 2 == 0 && 2 * t / 2 == t;
  }

  // ---------- Whole notes ----------

  // The part of an operator that a step of its envelope changes.
  datatype Env = Env(stage: Stage, level: int)

  // One step of OPL3_EnvelopeCalc.
  function EnvStep(regs: Registers, key: bool, env: Env, clock: Clock): Env {
    var regRate := RegRate(regs, env.stage, key && env.stage == Release);
    var rate := Rate(regs, regRate);
    Env(NextStage(env.stage, env.level, key, regs.sustainLevel),
        NextLevel(env.stage, env.level, key, RateHi(rate), Shift(regRate, rate, clock), regs.sustainLevel))
  }

  // The envelope after n samples.
  function EnvAt(regs: Registers, key: bool, env: Env, c: Clock, n: nat): Env {
    if n == 0 then env else EnvStep(regs, key, EnvAt(regs, key, env, c, n - 1), ClockAt(c, n - 1))
  }

  // The envelope moves at this rate in the sample.
  predicate Active(regs: Registers, regRate: nat, c: Clock) {
    Shift(regRate, Rate(regs, regRate), c) > 0
  }

  // How many of the first n samples are active.
  function ActiveCount(regs: Registers, regRate: nat, c: Clock, n: nat): nat {
    if n == 0 then 0
    else ActiveCount(regs, regRate, c, n - 1) + (if Active(regs, regRate, ClockAt(c, n - 1)) then 1 else 0)
  }

  const PERIOD: nat := 0x8000

  // At every rate but 0, some sample of a period is active.
  lemma SoonActive(regs: Registers, regRate: nat, c: Clock) returns (n: nat)
    requires InRange(regs) && 0 < regRate < 16 && Synchronous(c)
    ensures n < PERIOD && Active(regs, regRate, ClockAt(c, n))
  {
    hide Shift, EgAdd, Tick;
    var start := if c.egState then 0 else 1;
    assert ClockAt(c, start).egState by { ClockAtOne(c); }
    ClockStaysSynchronous(c, start);
    var hi := RateHi(Rate(regs, regRate));
    if hi >= 12 {
      n := start;
      FastIsActive(regs, regRate, ClockAt(c, n));
    } else {
      var d := ClockAt(c, start);
      var room := EG_TIMER - 1 - d.egTimer;
      if room > 0x1001 {
        n := InTheWindow(d, 11 - hi);
        ClockJoin(c, start, n);
        n := start + n;
      } else {
        TimerMoves(d, room);
        ClockJoin(c, start, 2 * room);
        OverflowRestarts(ClockAt(d, 2 * room));
        ClockJoin(d, 2 * room, 2);
        var e := ClockAt(d, 2 * room + 2);
        n := InTheWindow(e, 11 - hi);
        ClockJoin(d, 2 * room + 2, n);
        ClockJoin(c, start, 2 * room + 2 + n);
        n := start + 2 * room + 2 + n;
      }
      SlowIsActive(regs, regRate, ClockAt(c, n));
    }
  }

  lemma ClockAtOne(c: Clock)
    ensures ClockAt(c, 0) == c && ClockAt(c, 1) == Tick(c) && Tick(c).egState == !c.egState
  {
    hide EgAdd;
  }

  lemma OverflowRestarts(c: Clock)
    requires Synchronous(c) && c.egState && c.egTimer == EG_TIMER - 1
    ensures var d := ClockAt(c, 2); Synchronous(d) && d.egState && d.egTimer == 1
  {
    hide EgAdd;
    ClockStaysSynchronous(c, 2);
    ClockAtOne(c);
    assert ClockAt(c, 2) == Tick(ClockAt(c, 1));
  }

  lemma InTheWindow(c: Clock, k: nat) returns (n: nat)
    requires Synchronous(c) && c.egState && k <= 10 && c.egTimer + 0x1001 < EG_TIMER
    ensures n <= 0x2002 && ClockAt(c, n).egState && ClockAt(c, n).egAdd == k + 1
  {
    hide Tick;
    var d := ZerosComeUp(c.egTimer + 1, k);
    PowerBelow(k);
    n := 2 * (d + 1);
    TimerMoves(c, d + 1);
  }

  lemma PowerBelow(k: nat)
    requires k <= 10
    ensures Pow2(k + 1) <= 0x1000
    decreases 10 - k
  {
    assert Pow2(11) == 0x800;
    if k < 10 { PowerBelow(k + 1); }
  }

  lemma {:induction false} FewZeros(t: nat, n: nat)
    requires 0 < t < Pow2(n)
    ensures TrailingZeros(t) < n
  {
    if t % 2 == 0 { FewZeros(t / 2, n - 1); }
  }

  lemma FastIsActive(regs: Registers, regRate: nat, c: Clock)
    requires regRate > 0 && RateHi(Rate(regs, regRate)) >= 12 && c.egState
    ensures Active(regs, regRate, c)
  {}

  lemma SlowIsActive(regs: Registers, regRate: nat, c: Clock)
    requires regRate > 0 && RateHi(Rate(regs, regRate)) < 12 && c.egState
    requires c.egAdd == 12 - RateHi(Rate(regs, regRate))
    ensures Active(regs, regRate, c)
  {}

  lemma {:induction false} CountKeepsOrder(regs: Registers, regRate: nat, c: Clock, m: nat, n: nat)
    requires m <= n
    ensures ActiveCount(regs, regRate, c, m) <= ActiveCount(regs, regRate, c, n)
  {
    hide Active;
    if m < n { CountKeepsOrder(regs, regRate, c, m, n - 1); }
  }

  // So many periods have at least so many active samples.
  lemma {:induction false} ActiveOften(regs: Registers, regRate: nat, c: Clock, k: nat)
    requires InRange(regs) && 0 < regRate < 16 && Synchronous(c)
    ensures ActiveCount(regs, regRate, c, k * PERIOD) >= k
  {
    hide Active;
    if k > 0 {
      ActiveOften(regs, regRate, c, k - 1);
      var before := (k - 1) * PERIOD;
      ClockStaysSynchronous(c, before);
      var n := SoonActive(regs, regRate, ClockAt(c, before));
      ClockJoin(c, before, n);
      CountKeepsOrder(regs, regRate, c, before, before + n);
      CountKeepsOrder(regs, regRate, c, before + n + 1, k * PERIOD);
    }
  }

  // Each active step takes at least one from the level of a held attack, until it is at full volume.
  lemma {:induction false} AttackRunsDown(regs: Registers, level: int, c: Clock, n: nat)
    requires InRange(regs) && 0 <= level <= 511 && RateHi(Rate(regs, regs.attackRate)) != 15
    ensures var env := EnvAt(regs, true, Env(Attack, level), c, n);
      || (env.stage == Attack && 0 <= env.level <= level - ActiveCount(regs, regs.attackRate, c, n))
      || Reached(regs, level, c, n)
  {
    hide NextLevel, Shift, Rate, RateHi;
    if n > 0 && !Reached(regs, level, c, n - 1) {
      AttackRunsDown(regs, level, c, n - 1);
      var env := EnvAt(regs, true, Env(Attack, level), c, n - 1);
      assert env.level > 0;
      var rate := Rate(regs, regs.attackRate);
      var shift := Shift(regs.attackRate, rate, ClockAt(c, n - 1));
      LevelInRange(Attack, env.level, true, RateHi(rate), shift, regs.sustainLevel);
      AttackFalls(env.level, true, RateHi(rate), shift, regs.sustainLevel);
    }
  }

  // A held attack has come to full volume within n samples.
  ghost predicate Reached(regs: Registers, level: int, c: Clock, n: nat) {
    exists k: nat | k <= n :: EnvAt(regs, true, Env(Attack, level), c, k) == Env(Attack, 0)
  }

  // An attack in which nothing moves.
  lemma {:induction false} AttackStays(regs: Registers, level: int, c: Clock, n: nat)
    requires 0 < level <= 511 && (regs.attackRate == 0 || RateHi(Rate(regs, regs.attackRate)) == 15)
    ensures EnvAt(regs, true, Env(Attack, level), c, n) == Env(Attack, level)
  {
    hide Rate, RateHi;
    if n > 0 { AttackStays(regs, level, c, n - 1); }
  }

  // The attack is so fast that it has to be instant.
  predicate Instant(regs: Registers) {
    4 * regs.attackRate + (if regs.ksr then regs.ksv else regs.ksv / 4) >= 60
  }

  lemma InstantIsHighest(regs: Registers)
    ensures Instant(regs) <==> RateHi(Rate(regs, regs.attackRate)) == 15
  {}

  // A key that is pressed starts an attack, at full volume exactly if it is instant.
  lemma KeyOnStartsAttack(regs: Registers, level: int, c: Clock)
    ensures EnvAt(regs, true, Env(Release, level), c, 1) == Env(Attack, if Instant(regs) then 0 else level)
  {
    hide Shift, Rate, RateHi;
    InstantIsHighest(regs);
    assert EnvAt(regs, true, Env(Release, level), c, 0) == Env(Release, level);
  }

  // At full volume the decay begins.
  lemma FullVolumeDecays(regs: Registers, c: Clock)
    ensures EnvAt(regs, true, Env(Attack, 0), c, 1) == Env(Decay, 0)
  {
    hide Shift, Rate, RateHi;
    assert EnvAt(regs, true, Env(Attack, 0), c, 0) == Env(Attack, 0);
  }

  // A key that is let go is released at its level, or moves on by one step from there.
  lemma KeyOffReleases(regs: Registers, env: Env, c: Clock)
    ensures EnvAt(regs, false, env, c, 1).stage == Release
  {
    hide Shift, Rate, RateHi;
    assert EnvAt(regs, false, env, c, 0) == env;
  }

  // A held key reaches full volume exactly when its rate is not 0 and not the one at which the
  // attack has to be instant, and then within a period for each unit of the level.
  lemma AttackReachesFull(regs: Registers, level: int, c: Clock)
    requires InRange(regs) && 0 < level <= 511 && Synchronous(c)
    ensures (exists n: nat :: Reached(regs, level, c, n)) <==> regs.attackRate > 0 && !Instant(regs)
    ensures regs.attackRate > 0 && !Instant(regs) ==> Reached(regs, level, c, level * PERIOD)
  {
    hide EnvAt, ActiveCount, Rate, RateHi, Instant;
    InstantIsHighest(regs);
    if regs.attackRate > 0 && !Instant(regs) {
      var n := level * PERIOD;
      AttackRunsDown(regs, level, c, n);
      ActiveOften(regs, regs.attackRate, c, level);
      var env := EnvAt(regs, true, Env(Attack, level), c, n);
      assert !Reached(regs, level, c, n) ==> env == Env(Attack, 0);
      assert Reached(regs, level, c, n);
    } else {
      forall n: nat
        ensures EnvAt(regs, true, Env(Attack, level), c, n) != Env(Attack, 0)
      {
        AttackStays(regs, level, c, n);
      }
    }
  }

  // ---------- Decay ----------

  // A held decay that has not come to the sustain level gets quieter by one at least in each active
  // step.
  lemma {:induction false} DecayRunsUp(regs: Registers, level: int, c: Clock, n: nat)
    requires InRange(regs) && 0 <= level && level / 16 <= regs.sustainLevel && level <= 511
    ensures var env := EnvAt(regs, true, Env(Decay, level), c, n);
      || SustainsWithin(regs, level, c, n)
      || (env.stage == Decay && level + ActiveCount(regs, regs.decayRate, c, n) <= env.level <= 511
          && env.level / 16 <= regs.sustainLevel)
  {
    hide NextLevel, Shift, Rate, RateHi;
    if n > 0 && !SustainsWithin(regs, level, c, n - 1) {
      DecayRunsUp(regs, level, c, n - 1);
      var env := EnvAt(regs, true, Env(Decay, level), c, n - 1);
      var rate := Rate(regs, regs.decayRate);
      var shift := Shift(regs.decayRate, rate, ClockAt(c, n - 1));
      DecayStep(env.level, RateHi(rate), shift, regs.sustainLevel);
      if env.level / 16 == regs.sustainLevel {
        assert Sustains(regs, level, c, n);
      }
    }
  }

  lemma DecayStep(level: int, hi: nat, shift: nat, sustainLevel: nat)
    requires 0 <= level <= 511 && shift <= 3 && level / 16 <= sustainLevel && sustainLevel <= 31
    ensures var next := NextLevel(Decay, level, true, hi, shift, sustainLevel);
      if level / 16 == sustainLevel then next / 16 == sustainLevel && next <= 511
      else next / 16 <= sustainLevel && next <= 511 && next >= level + (if shift > 0 then 1 else 0)
  {
    SmallPowers();
  }

  // A held decay has come to its sustain level, and to the stage of that name, within n samples.
  ghost predicate SustainsWithin(regs: Registers, level: int, c: Clock, n: nat) {
    exists k: nat | k <= n :: Sustains(regs, level, c, k)
  }

  ghost predicate Sustains(regs: Registers, level: int, c: Clock, n: nat) {
    var env := EnvAt(regs, true, Env(Decay, level), c, n);
    env.stage == Sustain && env.level / 16 == regs.sustainLevel
  }

  // A decay that has nothing to do, or that has missed its sustain level.
  lemma {:induction false} DecayStays(regs: Registers, level: int, c: Clock, n: nat)
    requires InRange(regs) && 0 <= level <= 511
    requires level / 16 > regs.sustainLevel || (level / 16 < regs.sustainLevel && regs.decayRate == 0)
    ensures var env := EnvAt(regs, true, Env(Decay, level), c, n);
      && env.stage == Decay && level <= env.level <= 511
      && (level / 16 < regs.sustainLevel ==> env.level == level)
  {
    hide NextLevel, Shift, Rate, RateHi;
    if n > 0 {
      DecayStays(regs, level, c, n - 1);
      var env := EnvAt(regs, true, Env(Decay, level), c, n - 1);
      var rate := Rate(regs, regs.decayRate);
      var shift := Shift(regs.decayRate, rate, ClockAt(c, n - 1));
      LevelInRange(Decay, env.level, true, RateHi(rate), shift, regs.sustainLevel);
      OthersRise(Decay, env.level, true, RateHi(rate), shift, regs.sustainLevel);
      if level / 16 < regs.sustainLevel { NoRate(regs, ClockAt(c, n - 1)); }
    }
  }

  lemma NoRate(regs: Registers, c: Clock)
    ensures Shift(0, Rate(regs, 0), c) == 0
  {}

  // A held decay comes to its sustain level exactly when it is there, or below it with a rate that
  // is not 0.
  lemma DecayComesToSustain(regs: Registers, level: int, c: Clock)
    requires InRange(regs) && 0 <= level <= 511 && Synchronous(c)
    ensures (exists n: nat :: EnvAt(regs, true, Env(Decay, level), c, n).stage == Sustain)
      <==> level / 16 == regs.sustainLevel || (level / 16 < regs.sustainLevel && regs.decayRate > 0)
    ensures level / 16 == regs.sustainLevel || (level / 16 < regs.sustainLevel && regs.decayRate > 0)
      ==> SustainsWithin(regs, level, c, 512 * PERIOD)
  {
    hide EnvAt, ActiveCount;
    if level / 16 == regs.sustainLevel {
      AlreadyThere(regs, level, c);
      assert EnvAt(regs, true, Env(Decay, level), c, 1).stage == Sustain;
    } else if level / 16 < regs.sustainLevel && regs.decayRate > 0 {
      DecayRunsUp(regs, level, c, 512 * PERIOD);
      ActiveOften(regs, regs.decayRate, c, 512);
      var k: nat :| k <= 512 * PERIOD && Sustains(regs, level, c, k);
      assert EnvAt(regs, true, Env(Decay, level), c, k).stage == Sustain;
    } else {
      forall n: nat
        ensures EnvAt(regs, true, Env(Decay, level), c, n).stage != Sustain
      {
        DecayStays(regs, level, c, n);
      }
    }
  }

  lemma AlreadyThere(regs: Registers, level: int, c: Clock)
    requires InRange(regs) && 0 <= level <= 511 && level / 16 == regs.sustainLevel
    ensures Sustains(regs, level, c, 1)
  {
    hide Shift, Rate, RateHi;
    assert EnvAt(regs, true, Env(Decay, level), c, 0) == Env(Decay, level);
  }

  // ---------- Sustain ----------

  lemma {:induction false} SustainStays(regs: Registers, level: int, c: Clock, n: nat)
    requires 0 <= level < 504 && (regs.sustained || regs.releaseRate == 0)
    ensures EnvAt(regs, true, Env(Sustain, level), c, n) == Env(Sustain, level)
  {
    hide Rate, RateHi;
    if n > 0 { SustainStays(regs, level, c, n - 1); }
  }

  lemma {:induction false} SustainRunsUp(regs: Registers, level: int, c: Clock, n: nat)
    requires InRange(regs) && 0 <= level <= 511 && !regs.sustained
    ensures var env := EnvAt(regs, true, Env(Sustain, level), c, n);
      var up := level + ActiveCount(regs, regs.releaseRate, c, n);
      env.stage == Sustain && (if up < 511 then up else 511) <= env.level <= 511
  {
    hide NextLevel, Shift, Rate, RateHi;
    if n > 0 {
      SustainRunsUp(regs, level, c, n - 1);
      var env := EnvAt(regs, true, Env(Sustain, level), c, n - 1);
      var rate := Rate(regs, regs.releaseRate);
      var shift := Shift(regs.releaseRate, rate, ClockAt(c, n - 1));
      LevelInRange(Sustain, env.level, true, RateHi(rate), shift, regs.sustainLevel);
      OthersRise(Sustain, env.level, true, RateHi(rate), shift, regs.sustainLevel);
    }
  }

  // A held key keeps its level exactly when the operator is a sustained one or its release has no
  // rate; otherwise it fades away like a released one.
  lemma SustainHoldsExactlyWhen(regs: Registers, level: int, c: Clock)
    requires InRange(regs) && 0 <= level < 504 && Synchronous(c)
    ensures (forall n: nat :: EnvAt(regs, true, Env(Sustain, level), c, n) == Env(Sustain, level))
      <==> regs.sustained || regs.releaseRate == 0
    ensures !regs.sustained && regs.releaseRate > 0 ==>
      forall n: nat | n >= 511 * PERIOD :: EnvAt(regs, true, Env(Sustain, level), c, n) == Env(Sustain, 511)
  {
    hide EnvAt, ActiveCount;
    if regs.sustained || regs.releaseRate == 0 {
      forall n: nat
        ensures EnvAt(regs, true, Env(Sustain, level), c, n) == Env(Sustain, level)
      {
        SustainStays(regs, level, c, n);
      }
    } else {
      ActiveOften(regs, regs.releaseRate, c, 511);
      forall n: nat | n >= 511 * PERIOD
        ensures EnvAt(regs, true, Env(Sustain, level), c, n) == Env(Sustain, 511)
      {
        CountKeepsOrder(regs, regs.releaseRate, c, 511 * PERIOD, n);
        SustainRunsUp(regs, level, c, n);
      }
      assert EnvAt(regs, true, Env(Sustain, level), c, 511 * PERIOD) != Env(Sustain, level);
    }
  }

  // ---------- Release ----------

  // Each active step adds at least one to the level of a released key.
  lemma {:induction false} ReleaseRunsUp(regs: Registers, level: int, c: Clock, n: nat)
    requires InRange(regs) && 0 <= level <= 511
    ensures var env := EnvAt(regs, false, Env(Release, level), c, n);
      var up := level + ActiveCount(regs, regs.releaseRate, c, n);
      env.stage == Release && (if up < 511 then up else 511) <= env.level <= 511
  {
    hide NextLevel, Shift, Rate, RateHi;
    if n > 0 {
      ReleaseRunsUp(regs, level, c, n - 1);
      var env := EnvAt(regs, false, Env(Release, level), c, n - 1);
      var rate := Rate(regs, regs.releaseRate);
      var shift := Shift(regs.releaseRate, rate, ClockAt(c, n - 1));
      LevelInRange(Release, env.level, false, RateHi(rate), shift, regs.sustainLevel);
      OthersRise(Release, env.level, false, RateHi(rate), shift, regs.sustainLevel);
    }
  }

  lemma {:induction false} ReleaseStays(regs: Registers, level: int, c: Clock, n: nat)
    requires 0 <= level < 504 && regs.releaseRate == 0
    ensures EnvAt(regs, false, Env(Release, level), c, n) == Env(Release, level)
  {
    hide Rate, RateHi;
    if n > 0 { ReleaseStays(regs, level, c, n - 1); }
  }

  // A released key falls silent, and stays so, exactly when its rate is not 0 or it is all but
  // silent.
  lemma ReleaseReachesSilence(regs: Registers, level: int, c: Clock)
    requires InRange(regs) && 0 <= level <= 511 && Synchronous(c)
    ensures (exists n: nat :: SilentFrom(regs, level, c, n)) <==> regs.releaseRate > 0 || level >= 504
    ensures regs.releaseRate > 0 ==> SilentFrom(regs, level, c, 511 * PERIOD)
  {
    hide EnvAt, ActiveCount;
    if regs.releaseRate > 0 {
      ActiveOften(regs, regs.releaseRate, c, 511);
      forall n: nat | n >= 511 * PERIOD
        ensures EnvAt(regs, false, Env(Release, level), c, n) == Env(Release, 511)
      {
        CountKeepsOrder(regs, regs.releaseRate, c, 511 * PERIOD, n);
        ReleaseRunsUp(regs, level, c, n);
      }
      assert SilentFrom(regs, level, c, 511 * PERIOD);
    } else if level >= 504 {
      forall n: nat | n >= 1
        ensures EnvAt(regs, false, Env(Release, level), c, n) == Env(Release, 511)
      {
        AtOnceSilent(regs, level, c, n);
      }
      assert SilentFrom(regs, level, c, 1);
    } else {
      forall n: nat
        ensures !SilentFrom(regs, level, c, n)
      {
        ReleaseStays(regs, level, c, n);
        assert EnvAt(regs, false, Env(Release, level), c, n) == Env(Release, level);
      }
    }
  }

  ghost predicate SilentFrom(regs: Registers, level: int, c: Clock, n: nat) {
    forall m: nat | m >= n :: EnvAt(regs, false, Env(Release, level), c, m) == Env(Release, 511)
  }

  lemma {:induction false} AtOnceSilent(regs: Registers, level: int, c: Clock, n: nat)
    requires 504 <= level <= 511 && n >= 1
    ensures EnvAt(regs, false, Env(Release, level), c, n) == Env(Release, 511)
  {
    hide Shift, Rate, RateHi;
    if n > 1 {
      AtOnceSilent(regs, level, c, n - 1);
    } else {
      assert EnvAt(regs, false, Env(Release, level), c, 0) == Env(Release, level);
    }
  }

  // ---------- How fast an envelope moves ----------

  // How many of the n numbers from t on have k trailing zeros.
  function ZerosCount(t: nat, n: nat, k: nat): nat {
    if n == 0 then 0
    else ZerosCount(t, n - 1, k) + (if t + n - 1 > 0 && TrailingZeros(t + n - 1) == k then 1 else 0)
  }

  // One of every 2^(k + 1) numbers in a row has.
  lemma {:induction false} ZerosCountIs(t: nat, m: nat, k: nat)
    ensures ZerosCount(t, m * Pow2(k + 1), k) == m
  {
    hide ZerosCount;
    var p := Pow2(k);
    assert Pow2(k + 1) == 2 * p;
    Doubled(m, p);
    if k == 0 {
      assert p == 1;
      OddCount(t, m);
    } else {
      HalvesCount(t, m * p, k);
      ZerosCountIs((t + 1) / 2, m, k - 1);
    }
  }

  lemma Doubled(m: nat, p: nat)
    ensures m * (2 * p) == 2 * (m * p)
  {}

  lemma OneIsOdd(t: nat)
    requires t > 0
    ensures TrailingZeros(t) == 0 <==> TrailingZeros(t + 1) != 0
  {}

  lemma {:induction false} OddCount(t: nat, n: nat)
    ensures ZerosCount(t, 2 * n, 0) == n
  {
    hide TrailingZeros;
    if n > 0 {
      OddCount(t, n - 1);
      var a := t + 2 * n - 2;
      if a > 0 { OneIsOdd(a); } else { OddHasNone(1); }
      assert ZerosCount(t, 2 * n, 0) == ZerosCount(t, 2 * n - 2, 0)
        + (if t + 2 * n - 2 > 0 && TrailingZeros(t + 2 * n - 2) == 0 then 1 else 0)
        + (if TrailingZeros(t + 2 * n - 1) == 0 then 1 else 0);
    }
  }

  lemma {:induction false} HalvesCount(t: nat, n: nat, k: nat)
    requires k > 0
    ensures ZerosCount(t, 2 * n, k) == ZerosCount((t + 1) / 2, n, k - 1)
  {
    hide TrailingZeros;
    if n > 0 {
      HalvesCount(t, n - 1, k);
      var a, b, half := t + 2 * n - 2, t + 2 * n - 1, (t + 1) / 2 + n - 1;
      assert ZerosCount(t, 2 * n, k) == ZerosCount(t, 2 * n - 2, k)
        + (if a > 0 && TrailingZeros(a) == k then 1 else 0)
        + (if b > 0 && TrailingZeros(b) == k then 1 else 0);
      if t % 2 == 0 {
        assert a == 2 * half && b % 2 == 1;
        OddHasNone(b);
        if half > 0 { DoubleHasOneMore(half); }
      } else {
        assert b == 2 * half && a % 2 == 1;
        OddHasNone(a);
        DoubleHasOneMore(half);
      }
    }
  }

  // A rate in the register, with the key scaling added.
  function Scaled(regs: Registers, regRate: nat): nat {
    4 * regRate + (if regs.ksr then regs.ksv else regs.ksv / 4)
  }

  lemma {:induction false} SlowCount(regs: Registers, regRate: nat, c: Clock, m: nat)
    requires regRate > 0 && 4 <= Scaled(regs, regRate) < 48
    requires Synchronous(c) && c.egState && c.egAdd == EgAdd(c.egTimer) && c.egTimer + m < EG_TIMER
    ensures var hi, lo := Scaled(regs, regRate) / 4, Scaled(regs, regRate) % 4;
      ActiveCount(regs, regRate, c, 2 * m) == ZerosCount(c.egTimer, m, 11 - hi)
        + (lo / 2) * ZerosCount(c.egTimer, m, 12 - hi) + (lo % 2) * ZerosCount(c.egTimer, m, 13 - hi)
  {
    hide TrailingZeros, Tick, Active;
    if m > 0 {
      SlowCount(regs, regRate, c, m - 1);
      TimerMoves(c, m - 1);
      var d := ClockAt(c, 2 * (m - 1));
      assert ClockAt(c, 2 * m - 1) == Tick(d);
      SlowPair(regs, regRate, d);
      assert ActiveCount(regs, regRate, c, 2 * m) == ActiveCount(regs, regRate, c, 2 * (m - 1))
        + (if Active(regs, regRate, d) then 1 else 0) + (if Active(regs, regRate, Tick(d)) then 1 else 0);
    }
  }

  // Two samples in a row.
  lemma SlowPair(regs: Registers, regRate: nat, d: Clock)
    requires regRate > 0 && 4 <= Scaled(regs, regRate) < 48 && d.egState && d.egAdd == EgAdd(d.egTimer)
    ensures var hi, lo := Scaled(regs, regRate) / 4, Scaled(regs, regRate) % 4;
      var zeros := if d.egTimer == 0 then -1 else TrailingZeros(d.egTimer);
      Active(regs, regRate, d)
      <==> zeros == 11 - hi || (zeros == 12 - hi && lo / 2 == 1) || (zeros == 13 - hi && lo % 2 == 1)
    ensures !Active(regs, regRate, Tick(d))
  {
    hide TrailingZeros;
  }

  // At a rate below 48, exactly 4 + rate % 4 samples move the envelope of every so many in a row: the
  // speed doubles with each four, and grows evenly between.
  lemma SlowRateIsExact(regs: Registers, regRate: nat, c: Clock)
    requires regRate > 0 && 4 <= Scaled(regs, regRate) < 48
    requires Synchronous(c) && c.egState && c.egAdd == EgAdd(c.egTimer)
    requires c.egTimer + Pow2(14 - Scaled(regs, regRate) / 4) < EG_TIMER
    ensures ActiveCount(regs, regRate, c, 2 * Pow2(14 - Scaled(regs, regRate) / 4))
      == 4 + Scaled(regs, regRate) % 4
  {
    hide ActiveCount, ZerosCount;
    var hi := Scaled(regs, regRate) / 4;
    var m := Pow2(14 - hi);
    SlowCount(regs, regRate, c, m);
    ZerosCountIs(c.egTimer, 4, 11 - hi);
    ZerosCountIs(c.egTimer, 2, 12 - hi);
    ZerosCountIs(c.egTimer, 1, 13 - hi);
    assert m == 2 * Pow2(13 - hi) && Pow2(13 - hi) == 2 * Pow2(12 - hi);
  }

  // From 52 on every sample does, by more the higher the rate is.
  lemma FastRateIsExact(regs: Registers, regRate: nat, c: Clock)
    requires regRate > 0 && 52 <= Scaled(regs, regRate)
    ensures var rate := Scaled(regs, regRate);
      Shift(regRate, rate, ClockAt(c, 0)) + Shift(regRate, rate, ClockAt(c, 1))
      + Shift(regRate, rate, ClockAt(c, 2)) + Shift(regRate, rate, ClockAt(c, 3))
      == if rate < 60 then rate - 48 else 12
  {
    hide EgAdd, Shift, Tick, IncStep;
    var rate := Scaled(regs, regRate);
    TimerCounts(c, 0);
    TimerCounts(c, 1);
    TimerCounts(c, 2);
    TimerCounts(c, 3);
    FastShift(regRate, rate, ClockAt(c, 0));
    FastShift(regRate, rate, ClockAt(c, 1));
    FastShift(regRate, rate, ClockAt(c, 2));
    FastShift(regRate, rate, ClockAt(c, 3));
    IncStepsAround(rate % 4, c.timer);
  }

  lemma FastShift(regRate: nat, rate: nat, c: Clock)
    requires regRate > 0 && rate >= 52
    ensures Shift(regRate, rate, c) == if rate >= 60 then 3 else rate / 4 - 12 + IncStep(rate % 4, c.timer % 4)
  {}

  lemma IncStepsAround(lo: nat, t: nat)
    requires lo < 4
    ensures IncStep(lo, t % 4) + IncStep(lo, (t + 1) % 4) + IncStep(lo, (t + 2) % 4) + IncStep(lo, (t + 3) % 4) == lo
  {
    IncStepsAverage(lo);
  }

  lemma {:induction false} TimerCounts(c: Clock, n: nat)
    ensures ClockAt(c, n).timer % 4 == (c.timer + n) % 4
  {
    hide EgAdd;
    if n > 0 {
      TimerCounts(c, n - 1);
      NextOfFour(ClockAt(c, n - 1).timer, c.timer + n - 1);
    }
  }

  lemma NextOfFour(a: nat, b: nat)
    requires a % 4 == b % 4
    ensures (a + 1) % 4 == (b + 1) % 4
  {}

  // ---------- The attenuation ----------

  // kslshift
  function KslShift(ksl: nat): nat {
    if ksl == 0 then 8 else if ksl == 1 then 1 else if ksl == 2 then 2 else 0
  }

  // The attenuation that is added to every output.
  function OutLevel(level: int, regs: Registers, egKsl: nat, tremolo: nat): int {
    level + 4 * regs.totalLevel + Opl3Wave.Shr(egKsl, KslShift(regs.kslShift)) + tremolo
  }

  lemma ShrFour(x: nat, k: nat)
    ensures Opl3Wave.Shr(x, k + 4) == Opl3Wave.Shr(x / 2 / 2 / 2 / 2, k)
  {
    assert Opl3Wave.Shr(x, k + 4) == Opl3Wave.Shr(x / 2, k + 3);
    assert Opl3Wave.Shr(x / 2, k + 3) == Opl3Wave.Shr(x / 2 / 2, k + 2);
  }

  // What each register adds: four for a step of the total level, and of the key scaling nothing, a
  // half, a quarter or all.
  lemma OutLevelParts(level: int, regs: Registers, egKsl: nat, tremolo: nat)
    requires InRange(regs) && egKsl <= 224
    ensures OutLevel(level, regs, egKsl, tremolo) - level - tremolo - 4 * regs.totalLevel ==
      match regs.kslShift
      case 0 => 0
      case 1 => egKsl / 2
      case 2 => egKsl / 4
      case _ => egKsl
  {
    assert regs.kslShift == 0 || regs.kslShift == 1 || regs.kslShift == 2 || regs.kslShift == 3;
    ShrFour(egKsl, 4);
    assert Opl3Wave.Shr(egKsl, 1) == Opl3Wave.Shr(egKsl / 2, 0) == egKsl / 2;
    assert Opl3Wave.Shr(egKsl, 0) == egKsl;
    ShrFour(egKsl / 2 / 2 / 2 / 2, 0);
    assert Opl3Wave.Shr(egKsl, 2) == Opl3Wave.Shr(egKsl / 2, 1) == Opl3Wave.Shr(egKsl / 2 / 2, 0);
    assert egKsl / 2 / 2 == egKsl / 4 && egKsl / 2 / 2 / 2 / 2 / 2 / 2 / 2 / 2 == 0;
  }

  // ---------- The operator ----------

  class Slot {
    var egRout: int
    var egOut: int
    var egGen: Stage
    var egKsl: nat
    var key: bool
    var pgReset: bool
    var regs: Registers

    constructor (regs: Registers)
      requires InRange(regs)
      ensures Valid() && egRout == 511 && egGen == Release && !key
    {
      egRout, egOut, egGen, egKsl := 511, 511, Release, 0;
      key, pgReset, this.regs := false, false, regs;
    }

    ghost predicate Valid()
      reads this
    {
      0 <= egRout <= 511 && egKsl <= 224 && InRange(regs)
    }

    // The part of OPL3_EnvelopeCalc that chooses by the stage.
    method Increment(reset: bool, off: bool, shift: nat, rateHi: nat) returns (inc: int)
      modifies this`egGen
      ensures egGen == NextStage(old(egGen), egRout, true, regs.sustainLevel) || old(egGen) == egGen == Release
      ensures inc == match old(egGen)
        case Attack =>
          if egRout != 0 && key && shift > 0 && rateHi != 15 then Shr4((-egRout - 1) * Pow2(shift)) else 0
        case Decay =>
          if egRout / 16 != regs.sustainLevel && !off && !reset && shift > 0 then Pow2(shift - 1) else 0
        case _ => if !off && !reset && shift > 0 then Pow2(shift - 1) else 0
    {
      hide Shr4, Pow2;
      inc := 0;
      match egGen {
        case Attack =>
          if egRout == 0 {
            egGen := Decay;
          } else if key && shift > 0 && rateHi != 15 {
            inc := Shr4((-egRout - 1) * Pow2(shift));
          }
        case Decay =>
          if egRout / 16 == regs.sustainLevel {
            egGen := Sustain;
          } else if !off && !reset && shift > 0 {
            inc := Pow2(shift - 1);
          }
        case _ =>
          if !off && !reset && shift > 0 {
            inc := Pow2(shift - 1);
          }
      }
    }

    // The part of OPL3_EnvelopeCalc that sets the attenuation.
    method SetOutput(tremolo: nat)
      requires Valid() && tremolo <= 26
      modifies this`egOut
      ensures egOut == OutLevel(egRout, regs, egKsl, tremolo) && 0 <= egOut <= 1013
    {
      hide KslShift, Opl3Wave.Shr;
      Opl3Wave.ShrKeepsOrder(0, egKsl, KslShift(regs.kslShift));
      Opl3Wave.ShrKeepsOrder(egKsl, egKsl, KslShift(regs.kslShift));
      egOut := egRout + 4 * regs.totalLevel + Opl3Wave.Shr(egKsl, KslShift(regs.kslShift)) + tremolo;
    }

    // OPL3_EnvelopeCalc
    method EnvelopeCalc(clock: Clock, tremolo: nat)
      requires Valid() && tremolo <= 26
      modifies this`egRout, this`egOut, this`egGen, this`pgReset
      ensures Valid()
      ensures pgReset == (key && old(egGen) == Release)
      ensures Env(egGen, egRout) == EnvStep(regs, key, Env(old(egGen), old(egRout)), clock)
      ensures egOut == OutLevel(old(egRout), regs, egKsl, tremolo) && 0 <= egOut <= 1013
    {
      hide Shift, RegRate, Rate, RateHi, KslShift, Pow2, Shr4, Opl3Wave.Shr, OutLevel;
      SetOutput(tremolo);
      var reset := key && egGen == Release;
      pgReset := reset;
      var regRate := RegRate(regs, egGen, reset);
      var rate := Rate(regs, regRate);
      var rateHi := RateHi(rate);
      var shift := Shift(regRate, rate, clock);
      LevelInRange(egGen, egRout, key, rateHi, shift, regs.sustainLevel);
      var rout := egRout;
      if reset && rateHi == 15 {
        rout := 0;
      }
      var off := egRout / 8 == 63;   // all of the bits 0x1f8
      if egGen != Attack && !reset && off {
        rout := 511;
      }
      var inc := Increment(reset, off, shift, rateHi);
      egRout := (rout + inc) % 512;
      if reset {
        egGen := Attack;
      }
      if !key {
        egGen := Release;
      }
    }
  }
  // The fields of the chip that are its clock.
  class Chip {
    var egState: bool
    var egAdd: nat
    var timer: nat
    var egTimer: nat
    var egTimerRem: bool

    function Now(): Clock
      reads this
    {
      Clock(egState, egAdd, timer, egTimer, egTimerRem)
    }

    // OPL3_Reset
    constructor ()
      ensures Now() == Clock(false, 0, 0, 0, false) && Synchronous(Now())
    {
      egState, egAdd, timer, egTimer, egTimerRem := false, 0, 0, 0, false;
    }

    // The part of OPL3_Generate that moves the clock.
    method MoveClock()
      requires egTimer < EG_TIMER
      modifies this
      ensures Now() == Tick(old(Now()))
    {
      timer := (timer + 1) % 0x1_0000;
      egAdd := 0;
      if egTimer != 0 {
        var shift := CountZeros();
        egAdd := if shift > 12 then 0 else shift + 1;
      }
      if egTimerRem || egState {
        if egTimer == EG_TIMER - 1 {
          egTimer, egTimerRem := 0, true;
        } else {
          egTimer, egTimerRem := egTimer + 1, false;
        }
      }
      egState := !egState;
    }

    // Its loop over the bits of the timer.
    method CountZeros() returns (shift: nat)
      requires 0 < egTimer < EG_TIMER
      ensures shift == TrailingZeros(egTimer)
    {
      assert Pow2(12) == 0x1000 && Pow2(24) == 0x100_0000 && Pow2(36) == EG_TIMER;
      FewZeros(egTimer, 36);
      shift := 0;
      var rest := egTimer;   // egTimer >> shift
      while shift < 36 && rest % 2 == 0
        invariant rest > 0 && TrailingZeros(egTimer) == shift + TrailingZeros(rest)
        decreases rest
      {
        shift, rest := shift + 1, rest / 2;
      }
    }
  }
}
