// i_winmusic.c: what is written to the stream for one MIDI event, at the compatibility level of
// vanilla Doom and at the two others.
module WinMidiEvents {

  type byte = b: int | 0 <= b < 256

  // midi_event_t
  datatype Event =
    | SysEx(data: seq<byte>)
    | SysExSplit(data: seq<byte>)
    | Meta(kind: byte, data: seq<byte>)
    | Channel(status: byte, channel: byte, param1: byte, param2: byte)

  // What a player of MIDI files relies on.  The length of a long message has to fit in 24 bits.
  ghost predicate WellFormed(e: Event) {
    match e
    case SysEx(data) => |data| + 1 < 0x100_0000
    case SysExSplit(_) => true
    case Meta(kind, data) => kind == META_SET_TEMPO ==> |data| >= 3
    case Channel(status, channel, _, _) => status % 16 == 0 && channel < 16
  }

  const META_MARKER: byte := 0x06
  const META_END_OF_TRACK: byte := 0x2f
  const META_SET_TEMPO: byte := 0x51

  const NOTE_OFF: byte := 0x80
  const NOTE_ON: byte := 0x90
  const AFTERTOUCH: byte := 0xa0
  const CONTROLLER: byte := 0xb0
  const PROGRAM_CHANGE: byte := 0xc0
  const CHAN_AFTERTOUCH: byte := 0xd0
  const PITCH_BEND: byte := 0xe0

  // native_event_t, with the data that follows a long one.
  datatype Native =
    | Short(delta: nat, status: byte, channel: byte, param1: byte, param2: byte)
    | Nop(delta: nat)
    | Tempo(delta: nat, tempo: int)
    | Long(delta: nat, bytes: seq<byte>)

  const UINT32: nat := 0x1_0000_0000

  // Fits the fields of a native_event_t.
  predicate Encodable(e: Native) {
    && e.delta < UINT32
    && match e
       case Short(_, status, channel, _, _) => channel < 16 && status % 16 == 0
       case Nop(_) => true
       case Tempo(_, tempo) => 0 <= tempo < 0x100_0000
       case Long(_, bytes) => |bytes| < 0x100_0000
  }

  predicate AllEncodable(out: seq<Native>) {
    forall i | 0 <= i < |out| :: Encodable(out[i])
  }

  lemma AllEncodableAppend(out: seq<Native>, e: Native)
    requires Encodable(e)
    ensures AllEncodable(out) ==> AllEncodable(out + [e])
  {
    hide Encodable;
  }

  function Total(out: seq<Native>): nat {
    if out == [] then 0 else Total(out[..|out| - 1]) + out[|out| - 1].delta
  }

  // A note, or a bend, at a tick of the stream.
  datatype Note = Note(time: int, status: byte, channel: byte, param1: byte, param2: byte)

  predicate IsNoteStatus(status: byte) {
    status == NOTE_OFF || status == NOTE_ON || status == PITCH_BEND
  }

  function NoteOf(e: Native, time: int): seq<Note> {
    if e.Short? && IsNoteStatus(e.status) then [Note(time, e.status, e.channel, e.param1, e.param2)] else []
  }

  // What a stream sounds like: its notes, each at the sum of the delays up to it.
  function Sounding(out: seq<Native>): seq<Note> {
    if out == [] then [] else
      Sounding(out[..|out| - 1]) + NoteOf(out[|out| - 1], Total(out))
  }

  lemma SoundingAppend(out: seq<Native>, e: Native)
    ensures Sounding(out + [e]) == Sounding(out) + NoteOf(e, Total(out) + e.delta)
  {
    hide NoteOf, Total;
    TotalAppend(out, e);
    assert (out + [e])[..|out|] == out;
  }

  lemma TotalAppend(out: seq<Native>, e: Native)
    ensures Total(out + [e]) == Total(out) + e.delta
  {
    assert (out + [e])[..|out|] == out;
  }

  datatype Level = Vanilla | Standard | Full

  datatype Fallback = NoFallback | BankMsb(value: byte) | BankLsb(value: byte) | Drums(value: byte)

  // The EMIDI state of a track, whether it has ended, and both as they were at the loop point.
  class Track {
    var endOfTrack: bool
    var savedEndOfTrack: bool
    var elapsed: nat
    var savedElapsed: nat
    var deviceFlags: bv32
    var designated: bool
    var ownProgram: bool
    var ownVolume: bool

    constructor ()
      ensures !endOfTrack && elapsed == 0 && !savedEndOfTrack && savedElapsed == 0 && !designated
    {
      endOfTrack, savedEndOfTrack, elapsed, savedElapsed := false, false, 0, 0;
      deviceFlags, designated, ownProgram, ownVolume := 0, false, false, false;
    }
  }

  // IsPartLevel
  predicate IsPartLevel(msg: seq<byte>) {
    && |msg| == 10 && msg[0] == 0x41 && msg[2] == 0x42 && msg[3] == 0x12 && msg[4] == 0x40
    && 0x10 <= msg[5] <= 0x1f && msg[6] == 0x19 && msg[9] == 0xf7
    && msg[8] as int == 128 - (msg[4] as int + msg[5] as int + msg[6] as int + msg[7] as int) % 128
  }

  // The channel that a part level message is for.
  function PartChannel(block: byte): (channel: byte)
    requires 0x10 <= block <= 0x1f
    ensures channel < 16
  {
    if block == 0x10 then 9 else if block < 0x1a then block - 0x11 else block - 0x10
  }

  // Every channel has one block.
  lemma PartChannelOnto(channel: byte)
    requires channel < 16
    ensures exists block: byte | 0x10 <= block <= 0x1f :: PartChannel(block) == channel
              && forall other: byte | 0x10 <= other <= 0x1f && PartChannel(other) == channel :: other == block
  {
    var block: byte := if channel == 9 then 0x10 else if channel < 9 then 0x11 + channel else 0x10 + channel;
    assert PartChannel(block) == channel;
  }

  // IsSysExReset
  predicate IsSysExReset(msg: seq<byte>) {
    && |msg| >= 5
    && ((msg[0] == 0x41 && msg[2] == 0x42 && msg[3] == 0x12 && |msg| == 10
         && ((msg[4] == 0x00 && msg[5] == 0x00 && msg[6] == 0x7f
              && ((msg[7] == 0x00 && msg[8] == 0x01) || (msg[7] == 0x01 && msg[8] == 0x00)))
             || (msg[4] == 0x40 && msg[5] == 0x00 && msg[6] == 0x7f && msg[7] == 0x00 && msg[8] == 0x41)))
        || (msg[0] == 0x43 && msg[2] == 0x2b && |msg| == 9
            && msg[3] == 0x00 && msg[4] == 0x00 && msg[5] == 0x7f && msg[6] == 0x00 && msg[7] == 0x01)
        || (msg[0] == 0x43 && msg[2] == 0x4c && |msg| == 8
            && msg[3] == 0x00 && msg[4] == 0x00 && (msg[5] == 0x7e || msg[5] == 0x7f) && msg[6] == 0x00)
        || (msg[0] == 0x7e && msg[2] == 0x09 && |msg| == 5 && 0x01 <= msg[3] <= 0x03))
  }

  // No message is both.
  lemma PartLevelIsNoReset(msg: seq<byte>)
    ensures !(IsPartLevel(msg) && IsSysExReset(msg))
  {}

  // Controllers that move the play position of one track or of all.
  predicate IsLoopController(controller: byte) {
    controller == 0x74 || controller == 0x75 || controller == 0x76 || controller == 0x77
  }

  predicate IsController(e: Event, controller: byte) {
    e.Channel? && e.status == CONTROLLER && e.param1 == controller
  }

  // An EMIDI track exclusion, or the loop point of RPG Maker.
  predicate IsExclusion(e: Event) {
    IsController(e, 0x6f)
  }

  // The other controllers of EMIDI.
  predicate IsOtherEMIDI(e: Event) {
    && e.Channel? && e.status == CONTROLLER
    && (e.param1 == 0x6e || e.param1 == 0x70 || e.param1 == 0x71 || IsLoopController(e.param1))
  }

  // Can take a track away from this device.
  predicate Designates(e: Event, rpgLoop: bool) {
    IsController(e, 0x6e) || (IsExclusion(e) && !rpgLoop)
  }

  predicate IsEnd(e: Event) {
    e.Meta? && e.kind == META_END_OF_TRACK
  }

  // What an event does to the play position, at the two levels that know loops: it sets the loop
  // point of RPG Maker, begins or ends a loop of its track or of all (with how often to repeat it,
  // -1 for ever), or is a marker of Final Fantasy.
  datatype Jump =
    | Stay | SetPoint | LoopBegin(count: int) | LoopEnd | GlobalBegin(count: int) | GlobalEnd | MarkStart | MarkEnd

  function JumpOf(e: Event, rpgLoop: bool): Jump {
    match e
    case Meta(kind, data) =>
      if kind != META_MARKER then Stay
      else if data == LOOP_START then MarkStart
      else if data == LOOP_END then MarkEnd
      else Stay
    case Channel(status, _, param1, param2) =>
      if status != CONTROLLER then Stay
      else if param1 == 0x6f && rpgLoop then SetPoint
      else if param1 == 0x74 then LoopBegin(RepeatCount(param2))
      else if param1 == 0x75 && param2 == 0x7f then LoopEnd
      else if param1 == 0x76 then GlobalBegin(RepeatCount(param2))
      else if param1 == 0x77 && param2 == 0x7f then GlobalEnd
      else Stay
    case _ => Stay
  }

  function RepeatCount(param2: byte): int {
    if param2 == 0 then -1 else param2
  }

  // Any of these but the loop point of RPG Maker.
  predicate IsLoopPoint(e: Event) {
    JumpOf(e, false) != Stay
  }

  lemma OnlyLoopPoint(e: Event, rpgLoop: bool)
    requires !IsLoopPoint(e)
    ensures JumpOf(e, rpgLoop) == if rpgLoop && IsExclusion(e) then SetPoint else Stay
  {}

  // Notes and bends, which every level plays as they are.
  predicate IsNote(e: Event) {
    e.Channel? && IsNoteStatus(e.status)
  }

  // What should sound for an event at a tick.
  function NotesOf(e: Event, time: int): seq<Note> {
    if IsNote(e) then [Note(time, e.status, e.channel, e.param1, e.param2)] else []
  }

  predicate IsTempo(e: Event) {
    e.Meta? && e.kind == META_SET_TEMPO
  }

  function TempoOf(data: seq<byte>): int
    requires |data| >= 3
  {
    data[0] as int * 0x1_0000 + data[1] as int * 0x100 + data[2] as int
  }

  // What happens to a controller: nothing, it is played, it is played without its value, it sets
  // the volume, or it is one of those that need a closer look.
  datatype Action = Drop | Play | PlayPlain | Volume | Special

  // The controllers of DMX.
  function VanillaAction(controller: byte): Action {
    if controller == 0x00 || controller == 0x20 || controller == 0x79 then PlayPlain
    else if controller == 0x07 then Volume
    else if controller in {0x01, 0x0a, 0x0b, 0x40, 0x43, 0x5b, 0x5d, 0x78, 0x7b} then Play
    else Drop
  }

  function StandardAction(controller: byte, level: Level): Action {
    if controller == 0x79 then PlayPlain
    else if controller == 0x07 then Volume
    else if controller == 0x20 || 0x62 <= controller <= 0x65 || 0x6e <= controller <= 0x71 then Special
    else if controller == 0x27 || IsLoopController(controller) then Drop
    else if controller in {0x00, 0x01, 0x06, 0x0a, 0x0b, 0x26, 0x40, 0x43, 0x5b, 0x5d, 0x78, 0x7b, 0x7e, 0x7f} then Play
    else if level == Full then Play
    else Drop
  }

  // Whatever vanilla plays, the other levels play too.
  lemma StandardPlaysVanilla(controller: byte, level: Level)
    ensures VanillaAction(controller) != Drop ==> StandardAction(controller, level) != Drop
    ensures VanillaAction(controller) == Play ==> StandardAction(controller, level) == Play
  {}

  // A volume under the slider, 127 at most.
  function ScaledVolume(volume: byte, factor: real): byte
    requires factor >= 0.0
  {
    var scaled := (volume as real * factor + 0.5).Floor;
    if scaled > 127 then 127 else scaled
  }

  // It is the nearest number to the product, up to 127, and a louder note is never quieter.
  lemma ScaledVolumeIsNearest(volume: byte, factor: real)
    requires factor >= 0.0
    ensures var s, product := ScaledVolume(volume, factor) as real, volume as real * factor;
      product - 0.5 < s <= product + 0.5 || (s == 127.0 && product > 126.5)
  {}

  lemma ScaledVolumeRises(low: byte, high: byte, factor: real)
    requires factor >= 0.0 && low <= high
    ensures ScaledVolume(low, factor) <= ScaledVolume(high, factor)
  {
    assert (high - low) as real * factor >= 0.0;
    assert high as real * factor == low as real * factor + (high - low) as real * factor;
  }

  function VolumeMsg(delta: nat, channel: byte, volume: byte, factor: real): Native
    requires factor >= 0.0
  {
    Short(delta, CONTROLLER, channel, 0x07, ScaledVolume(volume, factor))
  }

  // The RPN that stands for none, in two messages, the second without a delay.
  function NullRPN(delta: nat, channel: byte): seq<Native> {
    [Short(delta, CONTROLLER, channel, 0x64, 0x7f), Short(0, CONTROLLER, channel, 0x65, 0x7f)]
  }

  // A program, after the bank of the fallback if it has one.
  function ProgramMsgs(delta: nat, channel: byte, program: byte, fallback: Fallback): seq<Native> {
    match fallback
    case BankMsb(value) =>
      [Short(delta, CONTROLLER, channel, 0x00, value), Short(0, PROGRAM_CHANGE, channel, program, 0)]
    case Drums(value) => [Short(delta, PROGRAM_CHANGE, channel, value, 0)]
    case _ => [Short(delta, PROGRAM_CHANGE, channel, program, 0)]
  }

  // The controllers that need a closer look: an RPN that the device may not know becomes the one that
  // stands for none, so that no data is entered by accident.
  predicate SpecialDoes(level: Level, delta: nat, e: Event, fallback: Fallback, was: seq<Native>, now: seq<Native>)
    requires e.Channel?
  {
    var plain := [Short(delta, e.status, e.channel, e.param1, e.param2)];
    match e.param1
    case 0x20 => now == was + [Short(delta, e.status, e.channel, 0x20, if fallback.BankLsb? then 0 else e.param2)]
    case 0x62 => now == was + (if level == Full then plain else NullRPN(delta, e.channel))
    case 0x63 => now == was + (if level == Full then plain else NullRPN(delta, e.channel))
    case 0x64 =>
      now == was + (if e.param2 in {0, 1, 2, 0x7f} || level == Full then plain else NullRPN(delta, e.channel))
    case 0x65 =>
      now == was + (if e.param2 in {0, 0x7f} || level == Full then plain else NullRPN(delta, e.channel))
    case 0x6e => now == was + [Nop(delta)]
    case 0x6f => now == was + [Nop(delta)]
    case _ => true
  }

  // ---------- The devices of a track ----------

  const ALL_DEVICES: bv32 := 0xffff_ffff

  function DeviceBit(device: byte): bv32
    requires device <= 9
  {
    1 << device
  }

  function Common(a: bv32, b: bv32): bv32 {
    a & b
  }

  function Joined(a: bv32, b: bv32): bv32 {
    a | b
  }

  function Lacking(a: bv32, b: bv32): bv32 {
    a & !b
  }

  predicate HasDevice(flags: bv32, device: byte)
    requires device <= 9
  {
    Common(flags, DeviceBit(device)) != 0
  }

  function WithDevice(flags: bv32, device: byte): bv32
    requires device <= 9
  {
    Joined(flags, DeviceBit(device))
  }

  function WithoutDevice(flags: bv32, device: byte): bv32
    requires device <= 9
  {
    Lacking(flags, DeviceBit(device))
  }

  // A track designation, while it is heeded; 0x7f is for all devices.
  function AfterDesignation(flags: bv32, designated: bool, device: byte): (bv32, bool) {
    if device == 0x7f then (ALL_DEVICES, true)
    else if device <= 9 then (WithDevice(flags, device), true)
    else (flags, designated)
  }

  function AfterExclusion(flags: bv32, designated: bool, device: byte): (bv32, bool) {
    var some := if designated then flags else ALL_DEVICES;
    (if device <= 9 then WithoutDevice(some, device) else some, true)
  }

  // The devices of a track after an event of EMIDI, which only the first beat of the track heeds.
  function DevicesOf(e: Event, rpgLoop: bool, heeded: bool, flags: bv32, designated: bool): (bv32, bool)
    requires e.Channel?
  {
    if e.param1 == 0x6e && heeded then AfterDesignation(flags, designated, e.param2)
    else if e.param1 == 0x6f && !rpgLoop && heeded then AfterExclusion(flags, designated, e.param2)
    else (flags, designated)
  }

  lemma AnyBit(d: byte)
    requires d <= 9
    ensures DeviceBit(d) != 0
  {}

  lemma DifferentBits(a: byte, b: byte)
    requires a <= 9 && b <= 9 && a != b
    ensures Common(DeviceBit(a), DeviceBit(b)) == 0
  {}

  lemma SameBit(flags: bv32, x: bv32)
    ensures Common(Joined(flags, x), x) == x && Common(Lacking(flags, x), x) == 0
  {}

  lemma JoinOther(flags: bv32, x: bv32, y: bv32)
    requires Common(x, y) == 0
    ensures Common(Joined(flags, x), y) == Common(flags, y)
  {}

  lemma LackOther(flags: bv32, x: bv32, y: bv32)
    requires Common(x, y) == 0
    ensures Common(Lacking(flags, x), y) == Common(flags, y)
  {}

  lemma AllHave(device: byte)
    requires device <= 9
    ensures HasDevice(ALL_DEVICES, device)
  {}

  lemma ChangeDevice(flags: bv32, device: byte, d: byte)
    requires device <= 9 && d <= 9
    ensures HasDevice(WithDevice(flags, device), d) <==> device == d || HasDevice(flags, d)
    ensures HasDevice(WithoutDevice(flags, device), d) <==> device != d && HasDevice(flags, d)
  {
    hide DeviceBit, Common, Joined, Lacking;
    var x, y := DeviceBit(device), DeviceBit(d);
    AnyBit(d);
    if device != d {
      DifferentBits(device, d);
      JoinOther(flags, x, y);
      LackOther(flags, x, y);
    } else {
      SameBit(flags, x);
    }
  }

  // A designation adds a device, or all; an exclusion takes one away, from all if none was designated.
  lemma DevicesAfter(flags: bv32, designated: bool, device: byte, d: byte)
    requires d <= 9
    ensures HasDevice(AfterDesignation(flags, designated, device).0, d)
      <==> device == 0x7f || device == d || HasDevice(flags, d)
    ensures HasDevice(AfterExclusion(flags, designated, device).0, d)
      <==> device != d && (!designated || HasDevice(flags, d))
  {
    hide DeviceBit, HasDevice, WithDevice, WithoutDevice;
    AllHave(d);
    if device <= 9 {
      ChangeDevice(flags, device, d);
      ChangeDevice(ALL_DEVICES, device, d);
    }
  }

  // What an action writes.
  predicate Does(action: Action, delta: nat, e: Event, factor: real, was: seq<Native>, now: seq<Native>)
    requires e.Channel? && factor >= 0.0
  {
    match action
    case Drop => now == was + [Nop(delta)]
    case Play => now == was + [Short(delta, e.status, e.channel, e.param1, e.param2)]
    case PlayPlain => now == was + [Short(delta, e.status, e.channel, e.param1, 0)]
    case Volume => now == was + [VolumeMsg(delta, e.channel, e.param2, factor)]
    case Special => true
  }

  const LOOP_START: seq<byte> := [0x6c, 0x6f, 0x6f, 0x70, 0x53, 0x74, 0x61, 0x72, 0x74]
  const LOOP_END: seq<byte> := [0x6c, 0x6f, 0x6f, 0x70, 0x45, 0x6e, 0x64]

  class Writer {
    const level: Level
    const timediv: nat
    var tempo: int
    var useFallback: bool
    var volumeFactor: real
    const channelVolume: array<byte>
    var out: seq<Native>   // everything written so far

    constructor (level: Level, timediv: nat)
      ensures Valid() && out == [] && this.level == level && this.timediv == timediv && fresh(channelVolume)
    {
      this.level, this.timediv := level, timediv;
      tempo, useFallback, volumeFactor, out := 500000, false, 1.0, [];
      channelVolume := new byte[16](_ => 100);
    }

    ghost predicate Valid()
      reads this`volumeFactor
    {
      channelVolume.Length == 16 && volumeFactor >= 0.0
    }

    // What was written since `was`: as much time as `delta`, and these notes.
    ghost predicate Wrote(was: seq<Native>, delta: nat, notes: seq<Note>)
      reads this`out
    {
      && was < out && Total(out) == Total(was) + delta && Sounding(out) == Sounding(was) + notes
      && (AllEncodable(was) ==> AllEncodable(out))
    }

    method Write(e: Native)
      requires Encodable(e)
      modifies this`out
      ensures Wrote(old(out), e.delta, NoteOf(e, Total(old(out)) + e.delta)) && out == old(out) + [e]
    {
      AllEncodableAppend(out, e);
      TotalAppend(out, e);
      SoundingAppend(out, e);
      out := out + [e];
    }

    method SendShortMsg(delta: nat, status: byte, channel: byte, param1: byte, param2: byte)
      requires delta < UINT32 && status % 16 == 0 && channel < 16
      modifies this`out
      ensures var sent := Short(delta, status, channel, param1, param2);
        Wrote(old(out), delta, NoteOf(sent, Total(old(out)) + delta)) && out == old(out) + [sent]
    {
      Write(Short(delta, status, channel, param1, param2));
    }

    method SendChannelMsg(delta: nat, e: Event, useParam2: bool)
      requires delta < UINT32 && e.Channel? && WellFormed(e)
      modifies this`out
      ensures var sent := Short(delta, e.status, e.channel, e.param1, if useParam2 then e.param2 else 0);
              Wrote(old(out), delta, NoteOf(sent, Total(old(out)) + delta)) && out == old(out) + [sent]
    {
      SendShortMsg(delta, e.status, e.channel, e.param1, if useParam2 then e.param2 else 0);
    }

    method SendNOPMsg(delta: nat)
      requires delta < UINT32
      modifies this`out
      ensures Wrote(old(out), delta, []) && out == old(out) + [Nop(delta)]
    {
      Write(Nop(delta));
    }

    // SendNullRPN: two messages, the second without a delay.
    method SendNullRPN(delta: nat, e: Event)
      requires delta < UINT32 && e.Channel? && WellFormed(e)
      modifies this`out
      ensures Wrote(old(out), delta, []) && out == old(out) + NullRPN(delta, e.channel)
    {
      hide Total, Sounding, AllEncodable;
      SendShortMsg(delta, CONTROLLER, e.channel, 0x64, 0x7f);
      SendShortMsg(0, CONTROLLER, e.channel, 0x65, 0x7f);
    }

    method UpdateTempo(delta: nat, e: Event)
      requires delta < UINT32 && e.Meta? && |e.data| >= 3
      modifies this`out, this`tempo
      ensures Wrote(old(out), delta, []) && out == old(out) + [Tempo(delta, tempo)]
      ensures tempo == TempoOf(e.data)
    {
      tempo := e.data[2] as int + e.data[1] as int * 0x100 + e.data[0] as int * 0x1_0000;
      Write(Tempo(delta, tempo));
    }

    method SendManualVolumeMsg(delta: nat, channel: byte, volume: byte)
      requires Valid() && delta < UINT32 && channel < 16
      modifies this`out, channelVolume
      ensures Wrote(old(out), delta, [])
      ensures out == old(out) + [VolumeMsg(delta, channel, volume, volumeFactor)]
      ensures channelVolume[..] == old(channelVolume[..])[channel as int := volume]
    {
      var scaled := (volume as real * volumeFactor + 0.5).Floor;
      if scaled > 127 {
        scaled := 127;
      }
      assert scaled == ScaledVolume(volume, volumeFactor);
      SendShortMsg(delta, CONTROLLER, channel, 0x07, scaled);
      channelVolume[channel as int] := volume;
    }

    // ResetVolume
    method ResetVolume()
      requires Valid()
      modifies this`out, channelVolume
      ensures old(out) <= out && Total(out) == Total(old(out)) && Sounding(out) == Sounding(old(out))
      ensures AllEncodable(old(out)) ==> AllEncodable(out)
      ensures forall i | 0 <= i < 16 :: channelVolume[i] == 100
    {
      var i: int := 0;
      while i < 16
        invariant 0 <= i <= 16 && old(out) <= out && Total(out) == Total(old(out))
        invariant Sounding(out) == Sounding(old(out)) && (AllEncodable(old(out)) ==> AllEncodable(out))
        invariant forall j | 0 <= j < i :: channelVolume[j] == 100
      {
        SendManualVolumeMsg(0, i, 100);
        i := i + 1;
      }
    }

    // SendSysExMsg
    method SendSysExMsg(delta: nat, e: Event)
      requires Valid() && delta < UINT32 && e.SysEx? && WellFormed(e)
      modifies this`out, this`useFallback, channelVolume
      ensures Wrote(old(out), delta, [])
      ensures IsPartLevel(e.data) ==>
        channelVolume[..] == old(channelVolume[..])[PartChannel(e.data[5]) as int := e.data[7]]
      ensures IsSysExReset(e.data) ==> forall i | 0 <= i < 16 :: channelVolume[i] == 100
    {
      PartLevelIsNoReset(e.data);
      if IsPartLevel(e.data) {
        SendManualVolumeMsg(delta, PartChannel(e.data[5]), e.data[7]);
        return;
      }
      Write(Long(delta, [0xf0] + e.data));
      if IsSysExReset(e.data) {
        ResetVolume();
        if useFallback {
          useFallback := false;
        }
      }
    }

    method SendProgramMsg(delta: nat, channel: byte, program: byte, fallback: Fallback)
      requires delta < UINT32 && channel < 16
      modifies this`out
      ensures Wrote(old(out), delta, []) && out == old(out) + ProgramMsgs(delta, channel, program, fallback)
    {
      hide Total, Sounding, AllEncodable;
      match fallback {
        case BankMsb(value) =>
          SendShortMsg(delta, CONTROLLER, channel, 0x00, value);
          SendShortMsg(0, PROGRAM_CHANGE, channel, program, 0);
        case Drums(value) =>
          SendShortMsg(delta, PROGRAM_CHANGE, channel, value, 0);
        case _ =>
          SendShortMsg(delta, PROGRAM_CHANGE, channel, program, 0);
      }
    }

    method Designate(track: Track, device: byte)
      modifies track`deviceFlags, track`designated
      ensures (track.deviceFlags, track.designated) ==
        AfterDesignation(old(track.deviceFlags), old(track.designated), device)
    {
      hide DeviceBit;
      if device == 0x7f {
        track.deviceFlags, track.designated := ALL_DEVICES, true;
      } else if device <= 9 {
        track.deviceFlags, track.designated := track.deviceFlags | DeviceBit(device), true;
      }
    }

    method Exclude(track: Track, device: byte)
      modifies track`deviceFlags, track`designated
      ensures (track.deviceFlags, track.designated) ==
        AfterExclusion(old(track.deviceFlags), old(track.designated), device)
    {
      hide DeviceBit;
      if !track.designated {
        track.deviceFlags, track.designated := ALL_DEVICES, true;
      }
      if device <= 9 {
        track.deviceFlags := track.deviceFlags & !DeviceBit(device);
      }
    }

    // SendEMIDI.  What has to be done about the play position is left to the caller.
    method SendEMIDI(delta: nat, e: Event, track: Track, fallback: Fallback, rpgLoop: bool) returns (jump: Jump)
      requires Valid() && delta < UINT32 && e.Channel? && e.status == CONTROLLER && WellFormed(e)
      requires 0x6e <= e.param1 <= 0x71 || IsLoopController(e.param1)
      modifies this`out, channelVolume, track`deviceFlags, track`designated, track`ownProgram, track`ownVolume
      ensures Wrote(old(out), delta, []) && jump == JumpOf(e, rpgLoop)
      ensures IsLoopController(e.param1) ==> out == old(out) + [Nop(delta)]
      ensures IsLoopController(e.param1) ==> channelVolume[..] == old(channelVolume[..])
      ensures (track.deviceFlags, track.designated) ==
        DevicesOf(e, rpgLoop, track.elapsed < timediv, old(track.deviceFlags), old(track.designated))
      ensures e.param1 == 0x6e || e.param1 == 0x6f ==> out == old(out) + [Nop(delta)]
      // A program or a volume of EMIDI is played if the track has begun with one.
      ensures track.ownProgram == (old(track.ownProgram) || (e.param1 == 0x70 && track.elapsed < timediv))
      ensures track.ownVolume == (old(track.ownVolume) || (e.param1 == 0x71 && track.elapsed < timediv))
      ensures e.param1 == 0x70 ==>
        out == old(out) + if track.ownProgram then ProgramMsgs(delta, e.channel, e.param2, fallback) else [Nop(delta)]
      ensures e.param1 == 0x71 ==>
        out == old(out) + [if track.ownVolume then VolumeMsg(delta, e.channel, e.param2, volumeFactor) else Nop(delta)]
    {
      hide AfterDesignation, AfterExclusion, ProgramMsgs, ScaledVolume, Total, Sounding, AllEncodable, IsNote;
      jump := Stay;
      if e.param1 == 0x6e {          // track designation
        if track.elapsed < timediv {
          Designate(track, e.param2);
        }
        SendNOPMsg(delta);
      } else if e.param1 == 0x6f {   // track exclusion
        if rpgLoop {
          jump := SetPoint;
        } else if track.elapsed < timediv {
          Exclude(track, e.param2);
        }
        SendNOPMsg(delta);
      } else if e.param1 == 0x70 {   // program change
        if track.ownProgram || track.elapsed < timediv {
          track.ownProgram := true;
          SendProgramMsg(delta, e.channel, e.param2, fallback);
        } else {
          SendNOPMsg(delta);
        }
      } else if e.param1 == 0x71 {   // volume
        if track.ownVolume || track.elapsed < timediv {
          track.ownVolume := true;
          SendManualVolumeMsg(delta, e.channel, e.param2);
        } else {
          SendNOPMsg(delta);
        }
      } else {
        if e.param1 == 0x74 {          // a loop of the track begins
          jump := LoopBegin(RepeatCount(e.param2));
        } else if e.param1 == 0x75 {   // and ends
          jump := if e.param2 == 0x7f then LoopEnd else Stay;
        } else if e.param1 == 0x76 {   // a loop of all tracks
          jump := GlobalBegin(RepeatCount(e.param2));
        } else {
          jump := if e.param2 == 0x7f then GlobalEnd else Stay;
        }
        SendNOPMsg(delta);
      }
    }

    // SendMetaMsg; vanilla has no eye for markers.
    method SendMetaMsg(delta: nat, e: Event, track: Track) returns (jump: Jump)
      requires Valid() && delta < UINT32 && e.Meta? && WellFormed(e)
      modifies this`out, this`tempo, track`endOfTrack
      ensures Wrote(old(out), delta, [])
      ensures track.endOfTrack == (old(track.endOfTrack) || e.kind == META_END_OF_TRACK)
      ensures jump == if level == Vanilla then Stay else JumpOf(e, false)
      ensures IsTempo(e) ==> tempo == TempoOf(e.data) && out == old(out) + [Tempo(delta, tempo)]
    {
      jump := Stay;
      if e.kind == META_END_OF_TRACK {
        track.endOfTrack := true;
        SendNOPMsg(delta);
      } else if e.kind == META_SET_TEMPO {
        UpdateTempo(delta, e);
      } else if e.kind == META_MARKER {
        if level != Vanilla {
          jump := CheckFFLoop(e);
        }
        SendNOPMsg(delta);
      } else {
        SendNOPMsg(delta);
      }
    }

    // CheckFFLoop; whether an end has a start is left to the caller.
    method CheckFFLoop(e: Event) returns (jump: Jump)
      requires e.Meta? && e.kind == META_MARKER
      ensures jump == JumpOf(e, false)
    {
      if e.data == LOOP_START {
        return MarkStart;
      } else if e.data == LOOP_END {
        return MarkEnd;
      }
      return Stay;
    }

    // AddToBuffer_Vanilla
    method AddToBufferVanilla(delta: nat, e: Event, track: Track) returns (more: bool)
      requires Valid() && delta < UINT32 && WellFormed(e)
      modifies this`out, this`tempo, channelVolume, track`endOfTrack
      ensures Wrote(old(out), delta, NotesOf(e, Total(old(out)) + delta)) && more == !e.SysEx?
      ensures track.endOfTrack == (old(track.endOfTrack) || IsEnd(e))
      ensures e.Channel? && e.status == CONTROLLER ==>
        Does(VanillaAction(e.param1), delta, e, volumeFactor, old(out), out)
      ensures e.Channel? && e.status == PROGRAM_CHANGE ==>
        out == old(out) + [Short(delta, PROGRAM_CHANGE, e.channel, e.param1, 0)]
      ensures e.Channel? && e.status == CONTROLLER && e.param1 == 0x07 ==>
                channelVolume[..] == old(channelVolume[..])[e.channel as int := e.param2]
      ensures IsNote(e) ==> out == old(out) + [Short(delta, e.status, e.channel, e.param1, e.param2)]
      ensures IsTempo(e) ==> tempo == TempoOf(e.data) && out == old(out) + [Tempo(delta, tempo)]
    {
      match e {
        case SysEx(_) =>
          SendNOPMsg(delta);
          return false;
        case SysExSplit(_) =>
          SendNOPMsg(delta);
        case Meta(_, _) =>
          var jump := SendMetaMsg(delta, e, track);
        case Channel(status, channel, param1, param2) =>
          if status == CONTROLLER {
            if param1 == 0x00 || param1 == 0x20 {                     // bank select
              SendChannelMsg(delta, e, false);
            } else if param1 == 0x01 || param1 == 0x0a || param1 == 0x0b || param1 == 0x40 || param1 == 0x43
                      || param1 == 0x5b || param1 == 0x5d || param1 == 0x78 || param1 == 0x7b {
              SendChannelMsg(delta, e, true);
            } else if param1 == 0x07 {                                // volume
              SendManualVolumeMsg(delta, channel, param2);
            } else if param1 == 0x79 {                                // reset all controllers
              SendChannelMsg(delta, e, false);
            } else {
              SendNOPMsg(delta);
            }
          } else if status == NOTE_OFF || status == NOTE_ON || status == PITCH_BEND {
            SendChannelMsg(delta, e, true);
          } else if status == PROGRAM_CHANGE {
            SendChannelMsg(delta, e, false);
          } else {
            SendNOPMsg(delta);
          }
      }
      more := true;
    }

    // The controllers of AddToBuffer_Standard.
    method AddController(delta: nat, e: Event, track: Track, fallback: Fallback, rpgLoop: bool)
        returns (jump: Jump)
      requires Valid() && delta < UINT32 && WellFormed(e)
      requires e.Channel? && e.status == CONTROLLER
      modifies this`out, channelVolume, track`deviceFlags, track`designated, track`ownProgram, track`ownVolume
      ensures Wrote(old(out), delta, []) && jump == JumpOf(e, rpgLoop)
      ensures !Designates(e, rpgLoop) ==> track.designated == old(track.designated)
      ensures e.param1 != 0x07 || !old(track.ownVolume) ==>
        Does(StandardAction(e.param1, level), delta, e, volumeFactor, old(out), out)
      ensures e.param1 == 0x07 && old(track.ownVolume) ==> out == old(out) + [Nop(delta)]
      ensures SpecialDoes(level, delta, e, fallback, old(out), out)
      ensures e.param1 == 0x07 ==> channelVolume[..] == if old(track.ownVolume) then old(channelVolume[..])
                                                        else old(channelVolume[..])[e.channel as int := e.param2]
    {
      jump := Stay;
      var param1, param2 := e.param1, e.param2;
      if param1 == 0x00 || param1 == 0x01 || param1 == 0x06 || param1 == 0x0a || param1 == 0x0b || param1 == 0x26
         || param1 == 0x40 || param1 == 0x43 || param1 == 0x5b || param1 == 0x5d || param1 == 0x78 || param1 == 0x7b
         || param1 == 0x7e || param1 == 0x7f {
        SendChannelMsg(delta, e, true);
      } else if param1 == 0x07 {                                      // volume
        if track.ownVolume {
          SendNOPMsg(delta);
        } else {
          SendManualVolumeMsg(delta, e.channel, param2);
        }
      } else if param1 == 0x27 {
        SendNOPMsg(delta);
      } else if param1 == 0x20 {                                      // bank select, low byte
        SendChannelMsg(delta, e, !fallback.BankLsb?);
      } else if param1 == 0x62 || param1 == 0x63 {                    // NRPN
        SendOrNullRPN(delta, e, level == Full);
      } else if param1 == 0x64 {                                      // RPN
        SendOrNullRPN(delta, e, param2 <= 0x02 || param2 == 0x7f || level == Full);
      } else if param1 == 0x65 {
        SendOrNullRPN(delta, e, param2 == 0x00 || param2 == 0x7f || level == Full);
      } else if 0x6e <= param1 <= 0x71 || IsLoopController(param1) {
        jump := SendEMIDI(delta, e, track, fallback, rpgLoop);
      } else if param1 == 0x79 {                                      // reset all controllers
        SendChannelMsg(delta, e, false);
      } else {
        SendOrNop(delta, e, true);
      }
    }

    method SendOrNullRPN(delta: nat, e: Event, send: bool)
      requires delta < UINT32 && e.Channel? && e.status == CONTROLLER && WellFormed(e)
      modifies this`out
      ensures Wrote(old(out), delta, [])
      ensures out == old(out) + if send then [Short(delta, e.status, e.channel, e.param1, e.param2)]
                                else NullRPN(delta, e.channel)
    {
      if send {
        SendChannelMsg(delta, e, true);
      } else {
        SendNullRPN(delta, e);
      }
    }

    // What only the full level passes on.
    method SendOrNop(delta: nat, e: Event, useParam2: bool)
      requires delta < UINT32 && e.Channel? && !IsNote(e) && WellFormed(e)
      modifies this`out
      ensures Wrote(old(out), delta, [])
      ensures var sent := Short(delta, e.status, e.channel, e.param1, if useParam2 then e.param2 else 0);
        out == old(out) + [if level == Full then sent else Nop(delta)]
    {
      if level == Full {
        SendChannelMsg(delta, e, useParam2);
      } else {
        SendNOPMsg(delta);
      }
    }

    // The track is for other devices.
    predicate Excluded(track: Track)
      reads track`designated, track`deviceFlags
    {
      track.designated && track.deviceFlags & 1 == 0
    }

    // AddToBuffer_Standard; `checked` is what MIDI_CheckFallback finds.
    method AddToBufferStandard(delta: nat, e: Event, track: Track, checked: Fallback, rpgLoop: bool)
        returns (more: bool, jump: Jump)
      requires Valid() && delta < UINT32 && WellFormed(e)
      modifies this`out, this`tempo, this`useFallback, channelVolume, track`endOfTrack, track`deviceFlags,
               track`designated, track`ownProgram, track`ownVolume
      ensures Wrote(old(out), delta, if old(Excluded(track)) then [] else NotesOf(e, Total(old(out)) + delta))
      ensures more == !e.SysEx?
      ensures level != Vanilla ==> jump == if e.Channel? && old(Excluded(track)) then Stay else JumpOf(e, rpgLoop)
      ensures !Designates(e, rpgLoop) ==> track.designated == old(track.designated)
      ensures track.endOfTrack == (old(track.endOfTrack) || IsEnd(e))
      ensures e.Channel? && e.status == CONTROLLER && !old(Excluded(track)) ==>
        if e.param1 == 0x07 && old(track.ownVolume) then out == old(out) + [Nop(delta)]
        else Does(StandardAction(e.param1, level), delta, e, volumeFactor, old(out), out)
      ensures e.Channel? && e.status == CONTROLLER && !old(Excluded(track)) ==>
        SpecialDoes(level, delta, e, if old(useFallback) then checked else NoFallback, old(out), out)
      ensures e.Channel? && e.status == PROGRAM_CHANGE && !old(Excluded(track)) ==>
        out == old(out) + if old(track.ownProgram) then [Nop(delta)]
                          else ProgramMsgs(delta, e.channel, e.param1, if old(useFallback) then checked else NoFallback)
      ensures e.Channel? && old(Excluded(track)) ==> out == old(out) + [Nop(delta)]
      ensures IsNote(e) && !old(Excluded(track)) ==>
        out == old(out) + [Short(delta, e.status, e.channel, e.param1, e.param2)]
      ensures IsTempo(e) ==> tempo == TempoOf(e.data) && out == old(out) + [Tempo(delta, tempo)]
    {
      hide Total, Sounding, AllEncodable;
      var fallback := if useFallback then checked else NoFallback;
      more, jump := true, Stay;
      match e {
        case SysEx(_) =>
          if level == Full {
            SendSysExMsg(delta, e);
          } else {
            SendNOPMsg(delta);
          }
          return false, Stay;
        case SysExSplit(_) =>
          SendNOPMsg(delta);
        case Meta(_, _) =>
          jump := SendMetaMsg(delta, e, track);
        case Channel(status, channel, param1, param2) =>
          if Excluded(track) {
            SendNOPMsg(delta);   // this device is excluded from the track
          } else if status == CONTROLLER {
            jump := AddController(delta, e, track, fallback, rpgLoop);
          } else if status == NOTE_OFF || status == NOTE_ON || status == PITCH_BEND {
            SendChannelMsg(delta, e, true);
          } else if status == PROGRAM_CHANGE {
            if track.ownProgram {
              SendNOPMsg(delta);
            } else {
              SendProgramMsg(delta, channel, param1, fallback);
            }
          } else if status == AFTERTOUCH {
            SendOrNop(delta, e, true);
          } else if status == CHAN_AFTERTOUCH {
            SendOrNop(delta, e, false);
          } else {
            SendNOPMsg(delta);
          }
      }
    }

    // AddToBuffer: on every path the delay of the event is passed on, once.
    method AddToBuffer(delta: nat, e: Event, track: Track, checked: Fallback, rpgLoop: bool)
        returns (more: bool, jump: Jump)
      requires Valid() && delta < UINT32 && WellFormed(e)
      modifies this`out, this`tempo, this`useFallback, channelVolume, track`endOfTrack, track`deviceFlags,
               track`designated, track`ownProgram, track`ownVolume
      ensures Wrote(old(out), delta,
        if level != Vanilla && old(Excluded(track)) then [] else NotesOf(e, Total(old(out)) + delta))
      ensures more == !e.SysEx?
      ensures jump == if level == Vanilla || (e.Channel? && old(Excluded(track))) then Stay else JumpOf(e, rpgLoop)
      ensures !Designates(e, rpgLoop) ==> track.designated == old(track.designated)
      ensures track.endOfTrack == (old(track.endOfTrack) || IsEnd(e))
      ensures IsNote(e) && !(level != Vanilla && old(Excluded(track))) ==>
        out == old(out) + [Short(delta, e.status, e.channel, e.param1, e.param2)]
      ensures IsTempo(e) ==> tempo == TempoOf(e.data) && out == old(out) + [Tempo(delta, tempo)]
    {
      hide Total, Sounding, AllEncodable;
      if level == Vanilla {
        more := AddToBufferVanilla(delta, e, track);
        jump := Stay;
      } else {
        more, jump := AddToBufferStandard(delta, e, track, checked, rpgLoop);
      }
    }
  }
}
