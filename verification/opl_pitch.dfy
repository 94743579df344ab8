// i_oplmusic.c: the entry of the frequency table and the octave for a note.
module OplPitch {

  const FREQUENCY_CURVE_SIZE: nat := 668

  // A note moved by octaves into the range 0 to 95.
  function Normal(note: int): (n: int)
    ensures 0 <= n <= 95 && (n - note) % 12 == 0
    ensures 0 <= note <= 95 ==> n == note
  {
    if note < 0 then note % 12 else if note > 95 then 84 + note % 12 else note
  }

  // An index into the frequency table, and the octave.
  datatype Pitch = Pitch(index: int, octave: int)

  function PitchOf(freqIndex: int): Pitch {
    if freqIndex < 0 then Pitch(0, 0)
    else if freqIndex < 284 then Pitch(freqIndex, 0)
    else Pitch(284 + (freqIndex - 284) % 384, if (freqIndex - 284) / 384 >= 7 then 7 else (freqIndex - 284) / 384)
  }

  lemma InTable(freqIndex: int)
    ensures 0 <= PitchOf(freqIndex).index < FREQUENCY_CURVE_SIZE && 0 <= PitchOf(freqIndex).octave <= 7
  {}

  // Twelve semitones up are the same entry one octave higher, up to the last octave of the chip.
  lemma OctaveUp(freqIndex: int)
    requires freqIndex >= 284
    ensures PitchOf(freqIndex + 384).index == PitchOf(freqIndex).index
    ensures PitchOf(freqIndex + 384).octave == PitchOf(freqIndex).octave + 1 <==> freqIndex < 284 + 7 * 384
  {}

  // What FrequencyForVoice computes; `offset` is added unless the instrument has a fixed pitch.
  function FrequencyOf(voiceNote: int, fixed: bool, offset: int, bend: int, second: bool, fineTuning: nat): Pitch {
    var note := Normal(if fixed then voiceNote else voiceNote + offset);
    PitchOf(64 + 32 * note + bend + (if second then fineTuning / 2 - 64 else 0))
  }

  // ---------- What the computation means ----------

  // The steps of a pitch, 32 for a semitone and 384 for an octave.
  function Height(p: Pitch): int {
    384 * p.octave + p.index
  }

  // Neither below the table nor above the last octave.
  predicate InRange(voiceNote: int, fixed: bool, offset: int, bend: int, second: bool, fineTuning: nat) {
    var note := Normal(if fixed then voiceNote else voiceNote + offset);
    0 <= 64 + 32 * note + bend + (if second then fineTuning / 2 - 64 else 0) < 284 + 8 * 384
  }

  lemma HeightInRange(freqIndex: int)
    requires 0 <= freqIndex < 284 + 8 * 384
    ensures Height(PitchOf(freqIndex)) == freqIndex
  {}

  // Note 0 without a bend is entry 64 of the table.
  lemma LowestNote(fineTuning: nat)
    ensures FrequencyOf(0, true, 0, 0, false, fineTuning) == Pitch(64, 0)
  {}

  // A bend is as many steps, up or down.
  lemma BendMoves(voiceNote: int, fixed: bool, offset: int, bend: int, steps: int, second: bool, fineTuning: nat)
    requires InRange(voiceNote, fixed, offset, bend, second, fineTuning)
    requires InRange(voiceNote, fixed, offset, bend + steps, second, fineTuning)
    ensures Height(FrequencyOf(voiceNote, fixed, offset, bend + steps, second, fineTuning))
      == Height(FrequencyOf(voiceNote, fixed, offset, bend, second, fineTuning)) + steps
  {
    hide Normal, PitchOf;
    var note := Normal(if fixed then voiceNote else voiceNote + offset);
    var freqIndex := 64 + 32 * note + bend + (if second then fineTuning / 2 - 64 else 0);
    HeightInRange(freqIndex);
    HeightInRange(freqIndex + steps);
  }

  // A semitone is 32 steps, whether it is one of the note or of the offset.
  lemma SemitonesMove(voiceNote: int, offset: int, semitones: int, bend: int, second: bool, fineTuning: nat)
    requires 0 <= voiceNote + offset <= 95 && 0 <= voiceNote + offset + semitones <= 95
    requires InRange(voiceNote, false, offset, bend, second, fineTuning)
    requires InRange(voiceNote + semitones, false, offset, bend, second, fineTuning)
    ensures Height(FrequencyOf(voiceNote + semitones, false, offset, bend, second, fineTuning))
      == Height(FrequencyOf(voiceNote, false, offset, bend, second, fineTuning)) + 32 * semitones
    ensures FrequencyOf(voiceNote, false, offset + semitones, bend, second, fineTuning)
      == FrequencyOf(voiceNote + semitones, false, offset, bend, second, fineTuning)
  {
    hide PitchOf;
    var tuning := if second then fineTuning / 2 - 64 else 0;
    HeightInRange(64 + 32 * (voiceNote + offset) + bend + tuning);
    HeightInRange(64 + 32 * (voiceNote + offset + semitones) + bend + tuning);
  }

  // A fixed note does not heed the offset, and otherwise only their sum counts.
  lemma OffsetCounts(voiceNote: int, offset: int, bend: int, second: bool, fineTuning: nat)
    ensures FrequencyOf(voiceNote, true, offset, bend, second, fineTuning)
      == FrequencyOf(voiceNote, false, 0, bend, second, fineTuning)
    ensures FrequencyOf(voiceNote, false, offset, bend, second, fineTuning)
      == FrequencyOf(voiceNote + offset, true, 0, bend, second, fineTuning)
  {}

  // A note outside the range sounds as it does whole octaves higher or lower, inside.
  lemma OctavesAway(voiceNote: int, octaves: int, bend: int, second: bool, fineTuning: nat)
    requires voiceNote < 0 ==> 0 <= voiceNote + 12 * octaves < 12
    requires voiceNote > 95 ==> 84 <= voiceNote + 12 * octaves <= 95
    requires 0 <= voiceNote <= 95 ==> octaves == 0
    ensures FrequencyOf(voiceNote, true, 0, bend, second, fineTuning)
      == FrequencyOf(voiceNote + 12 * octaves, true, 0, bend, second, fineTuning)
  {
    hide PitchOf;
    assert Normal(voiceNote) == voiceNote + 12 * octaves == Normal(voiceNote + 12 * octaves) by {
      SameNormal(voiceNote, octaves);
    }
  }

  lemma SameNormal(note: int, octaves: int)
    requires note < 0 ==> 0 <= note + 12 * octaves < 12
    requires note > 95 ==> 84 <= note + 12 * octaves <= 95
    requires 0 <= note <= 95 ==> octaves == 0
    ensures Normal(note) == note + 12 * octaves && Normal(note + 12 * octaves) == note + 12 * octaves
  {}

  // A second part with a fine tuning of 128 sounds like the first one, and each two more of it are a
  // step.
  lemma FineTuningMoves(voiceNote: int, fixed: bool, offset: int, bend: int, fineTuning: nat)
    requires InRange(voiceNote, fixed, offset, bend, true, fineTuning)
    requires InRange(voiceNote, fixed, offset, bend, false, fineTuning)
    ensures Height(FrequencyOf(voiceNote, fixed, offset, bend, true, fineTuning))
      == Height(FrequencyOf(voiceNote, fixed, offset, bend, false, fineTuning)) + fineTuning / 2 - 64
  {
    hide Normal, PitchOf, Height;
    var index := 64 + 32 * Normal(if fixed then voiceNote else voiceNote + offset) + bend;
    var tuning := fineTuning / 2 - 64;
    assert FrequencyOf(voiceNote, fixed, offset, bend, false, fineTuning) == PitchOf(index);
    assert FrequencyOf(voiceNote, fixed, offset, bend, true, fineTuning) == PitchOf(index + tuning);
    HeightInRange(index);
    HeightInRange(index + tuning);
  }

  // Below the table the pitch is its first entry, and above the last octave the entries of that
  // octave come again.
  lemma BeyondTheRange(voiceNote: int, fixed: bool, offset: int, bend: int, second: bool, fineTuning: nat)
    requires !InRange(voiceNote, fixed, offset, bend, second, fineTuning)
    ensures var p := FrequencyOf(voiceNote, fixed, offset, bend, second, fineTuning);
      p == Pitch(0, 0)
      || (p.octave == 7 && p == FrequencyOf(voiceNote, fixed, offset, bend - 384, second, fineTuning))
  {
    hide Normal;
  }

  // FrequencyForVoice
  method FrequencyForVoice(voiceNote: int, fixed: bool, offset: int, bend: int, second: bool, fineTuning: nat)
      returns (p: Pitch)
    ensures p == FrequencyOf(voiceNote, fixed, offset, bend, second, fineTuning)
    ensures 0 <= p.index < FREQUENCY_CURVE_SIZE && 0 <= p.octave <= 7
  {
    hide Normal;
    var note := if fixed then voiceNote else voiceNote + offset;
    ghost var start := note;
    while note < 0
      invariant Normal(note) == Normal(start)
      decreases -note
    {
      NormalUp(note);
      note := note + 12;
    }
    while note > 95
      invariant note >= 0 && Normal(note) == Normal(start)
      decreases note
    {
      NormalDown(note);
      note := note - 12;
    }
    var freqIndex := 64 + 32 * note + bend;
    if second {
      freqIndex := freqIndex + fineTuning / 2 - 64;
    }
    InTable(freqIndex);
    if freqIndex < 0 {
      freqIndex := 0;
    }
    if freqIndex < 284 {
      return Pitch(freqIndex, 0);
    }
    var subIndex := (freqIndex - 284) % (12 * 32);
    var octave := (freqIndex - 284) / (12 * 32);
    if octave >= 7 {
      octave := 7;
    }
    p := Pitch(subIndex + 284, octave);
  }

  lemma NormalUp(note: int)
    requires note < 0
    ensures Normal(note + 12) == Normal(note)
  {}

  lemma NormalDown(note: int)
    requires note > 95
    ensures Normal(note - 12) == Normal(note)
  {}
}
