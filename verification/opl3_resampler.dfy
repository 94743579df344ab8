// opl3.c: the resampler, from chip samples to the rate of the mixer.
module Opl3Resampler {

  const RSM_UNIT: nat := 1024   // 1 << RSM_FRAC

  // C division, which rounds towards zero.
  function TruncDiv(a: int, b: nat): int
    requires b > 0
  {
    if a >= 0 then a / b else -((-a) / b)
  }

  lemma DivRange(a: int, b: nat, lo: int, hi: int)
    requires b > 0 && lo * b <= a <= hi * b
    ensures lo <= TruncDiv(a, b) <= hi
  {
    var q := TruncDiv(a, b);
    if a >= 0 {
      assert q * b <= a < (q + 1) * b;
      CancelLess(q, hi + 1, b);
      CancelLess(lo, q + 1, b);
    } else {
      assert q * b >= a > (q - 1) * b;
      CancelLess(q - 1, hi, b);
      CancelLess(lo - 1, q, b);
    }
  }

  lemma CancelLess(x: int, y: int, b: nat)
    requires b > 0 && x * b < y * b
    ensures x < y
  {
    if x >= y {
      Grows(y, x, b);
    }
  }

  lemma Grows(x: int, y: int, b: nat)
    requires x <= y
    ensures x * b <= y * b
  {
    assert y * b == x * b + (y - x) * b;
  }

  // A point on the line from `old` to `new`, at `part` of `whole`.
  function Interpolate(older: int, newer: int, part: nat, whole: nat): int
    requires whole > 0 && part <= whole
  {
    TruncDiv(older * (whole - part) + newer * part, whole)
  }

  function Min(a: int, b: int): int {
    if a < b then a else b
  }

  function Max(a: int, b: int): int {
    if a < b then b else a
  }

  // It lies between the two, so that the cast to 16 bits keeps it.
  lemma InterpolateBetween(older: int, newer: int, part: nat, whole: nat)
    requires whole > 0 && part <= whole
    ensures Min(older, newer) <= Interpolate(older, newer, part, whole) <= Max(older, newer)
  {
    var lo, hi := Min(older, newer), Max(older, newer);
    Grows(lo, older, whole - part);
    Grows(lo, newer, part);
    Grows(older, hi, whole - part);
    Grows(newer, hi, part);
    Spread(lo, part, whole);
    Spread(hi, part, whole);
    DivRange(older * (whole - part) + newer * part, whole, lo, hi);
  }

  lemma Spread(x: int, part: nat, whole: nat)
    requires part <= whole
    ensures x * (whole - part) + x * part == x * whole
  {}

  // It is the point of the line from the older sample to the newer one, but for less than one unit.
  lemma InterpolateIsLinear(older: int, newer: int, part: nat, whole: nat)
    requires whole > 0 && part <= whole
    ensures var line := older * whole + (newer - older) * part;
      var rest := line - whole * Interpolate(older, newer, part, whole);
      rest < whole && rest + whole > 0
  {
    var a := older * (whole - part) + newer * part;
    Spread(older, part, whole);
    assert a == older * whole + (newer - older) * part;
    DivRest(a, whole);
  }

  lemma DivRest(a: int, b: nat)
    requires b > 0
    ensures a - b * TruncDiv(a, b) < b && a - b * TruncDiv(a, b) + b > 0
  {
    if a >= 0 {
      assert a == b * (a / b) + a % b;
    } else {
      assert -a == b * ((-a) / b) + (-a) % b;
      assert b * -((-a) / b) == -(b * ((-a) / b));
    }
  }

  // At the start of a chip sample it is the older one.
  lemma InterpolateStart(older: int, newer: int, whole: nat)
    requires whole > 0
    ensures Interpolate(older, newer, 0, whole) == older
  {
    assert older * whole + newer * 0 == older * whole;
    DivRange(older * whole, whole, older, older);
  }

  // After `chip` chip samples and `calls` calls, the position lags by `count` of `ratio` parts.
  predicate Lags(chip: nat, ratio: nat, count: nat, calls: nat) {
    chip * ratio + count == RSM_UNIT * calls
  }

  lemma LagsStep(chip: nat, ratio: nat, count: nat, calls: nat)
    requires Lags(chip, ratio, count, calls) && count >= ratio
    ensures Lags(chip + 1, ratio, count - ratio, calls)
  {}

  lemma LagsCall(chip: nat, ratio: nat, count: nat, calls: nat)
    requires Lags(chip, ratio, count, calls)
    ensures Lags(chip, ratio, count + RSM_UNIT, calls + 1)
  {}

  lemma LagsExactly(chip: nat, ratio: nat, count: nat, calls: nat)
    requires Lags(chip, ratio, count, calls) && count < ratio
    ensures chip == RSM_UNIT * calls / ratio && count == RSM_UNIT * calls % ratio
  {
    var a := RSM_UNIT * calls;
    var q := a / ratio;
    assert q * ratio <= a < (q + 1) * ratio;
    CancelLess(q, chip + 1, ratio);
    CancelLess(chip, q + 1, ratio);
  }

  lemma LagsMore(chip: nat, ratio: nat, count: nat, calls: nat, bound: nat)
    requires Lags(chip, ratio, count, calls) && count >= ratio > 0 && RSM_UNIT * calls < (bound + 1) * ratio
    ensures chip < bound
  {
    CancelLess(chip + 1, bound + 1, ratio);
  }

  class Resampler {
    const rateRatio: nat
    var sampleCount: nat
    var oldSample: int    // one of the two channels
    var sample: int
    ghost var calls: nat
    ghost var chip: seq<int>   // what the chip has generated so far

    constructor (rateRatio: nat)
      requires rateRatio > 0
      ensures Valid() && this.rateRatio == rateRatio && calls == 0 && chip == []
    {
      this.rateRatio := rateRatio;
      sampleCount, oldSample, sample := 0, 0, 0;
      calls, chip := 0, [];
    }

    // The n-th chip sample from the end, 0 before there was one.
    ghost function Recent(n: nat): int
      reads this`chip
    {
      if n <= |chip| && n > 0 then chip[|chip| - n] else 0
    }

    // Before a call: the chip is behind by `sampleCount`.
    ghost predicate Valid()
      reads this
    {
      && rateRatio > 0 && Lags(|chip|, rateRatio, sampleCount, calls)
      && oldSample == Recent(2) && sample == Recent(1)
      && -0x8000 <= oldSample < 0x8000 && -0x8000 <= sample < 0x8000
    }

    // OPL3_GenerateResampled; `stream` is what the chip generates from here on.
    method GenerateResampled(stream: seq<int>) returns (buf: int, used: nat)
      requires Valid() && RSM_UNIT * calls < (|chip| + |stream| + 1) * rateRatio
      requires forall i | 0 <= i < |stream| :: -0x8000 <= stream[i] < 0x8000
      modifies this`sampleCount, this`oldSample, this`sample, this`calls, this`chip
      ensures Valid() && calls == old(calls) + 1
      ensures used <= |stream| && chip == old(chip) + stream[..used]
      ensures |chip| == RSM_UNIT * old(calls) / rateRatio
      ensures var part := RSM_UNIT * old(calls) % rateRatio;
              buf == Interpolate(Recent(2), Recent(1), part, rateRatio)
      ensures Min(Recent(2), Recent(1)) <= buf <= Max(Recent(2), Recent(1))
    {
      hide Lags, Interpolate;
      used := 0;
      while sampleCount >= rateRatio
        invariant Valid() && calls == old(calls) && used <= |stream| && chip == old(chip) + stream[..used]
        decreases sampleCount
      {
        LagsMore(|chip|, rateRatio, sampleCount, calls, |old(chip)| + |stream|);
        LagsStep(|chip|, rateRatio, sampleCount, calls);
        oldSample := sample;
        sample := stream[used];   // OPL3_Generate
        sampleCount := sampleCount - rateRatio;
        chip, used := chip + [stream[used]], used + 1;
      }
      LagsExactly(|chip|, rateRatio, sampleCount, calls);
      LagsCall(|chip|, rateRatio, sampleCount, calls);
      InterpolateBetween(oldSample, sample, sampleCount, rateRatio);
      buf := Interpolate(oldSample, sample, sampleCount, rateRatio);
      sampleCount := sampleCount + RSM_UNIT;
      calls := calls + 1;
    }
  }
}
