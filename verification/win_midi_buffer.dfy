// i_winmusic.c: the bytes of the stream buffer.
module WinMidiBuffer {
  import opened WinMidiEvents

  const DWORD: nat := 4

  // ---------- The format: three words for each event, and the padded data of a long one ----------

  function Word(x: nat): (bytes: seq<byte>)
    requires x < UINT32
    ensures |bytes| == 4
  {
    [x % 256, x / 256 % 256, x / 256 / 256 % 256, x / 256 / 256 / 256]
  }

  function WordAt(bytes: seq<byte>, i: nat): (x: nat)
    requires i + 4 <= |bytes|
    ensures x < UINT32
  {
    bytes[i] as int + 256 * bytes[i + 1] as int + 65536 * bytes[i + 2] as int + 16777216 * bytes[i + 3] as int
  }

  lemma WordRoundTrip(x: nat)
    requires x < UINT32
    ensures WordAt(Word(x), 0) == x
  {}

  // PADDED_SIZE
  function Padded(n: nat): (p: nat)
    ensures n <= p < n + DWORD && p % DWORD == 0
  {
    (n + DWORD - 1) / DWORD * DWORD
  }

  function Zeros(n: nat): (z: seq<byte>)
    ensures |z| == n
  {
    seq(n, _ => 0)
  }

  // The bytes of a MAKE_EVT word: 24 bits of data, and the kind.
  function DataWord(x: nat, kind: byte): (bytes: seq<byte>)
    requires x < 0x100_0000
    ensures |bytes| == 4
  {
    [x % 256, x / 256 % 256, x / 256 / 256, kind]
  }

  function DataAt(bytes: seq<byte>, i: nat): nat
    requires i + 4 <= |bytes|
  {
    bytes[i] as int + 256 * bytes[i + 1] as int + 65536 * bytes[i + 2] as int
  }

  lemma DataRoundTrip(x: nat, kind: byte)
    requires x < 0x100_0000
    ensures DataAt(DataWord(x, kind), 0) == x
  {}

  const MEVT_SHORTMSG: byte := 0x00
  const MEVT_TEMPO: byte := 0x01
  const MEVT_NOP: byte := 0x02
  const MEVT_LONGMSG: byte := 0x80

  function EventWord(e: Native): (bytes: seq<byte>)
    requires Encodable(e)
    ensures |bytes| == 4
  {
    match e
    case Short(_, status, channel, param1, param2) => [status + channel, param1, param2, MEVT_SHORTMSG]
    case Nop(_) => DataWord(0, MEVT_NOP)
    case Tempo(_, tempo) => DataWord(tempo, MEVT_TEMPO)
    case Long(_, bytes) => DataWord(|bytes|, MEVT_LONGMSG)
  }

  function Encode(e: Native): seq<byte>
    requires Encodable(e)
  {
    Word(e.delta) + Word(0) + EventWord(e)
    + (if e.Long? then e.bytes + Zeros(Padded(|e.bytes|) - |e.bytes|) else [])
  }

  // How the device reads the next event of the stream, and where the one after it starts.
  datatype Parsed = Failed | Parsed(event: Native, next: nat)

  function Parse(bytes: seq<byte>, i: nat): Parsed {
    if i + 12 > |bytes| then Failed else
      var delta, low, kind := WordAt(bytes, i), DataAt(bytes, i + 8), bytes[i + 11];
      if kind == MEVT_SHORTMSG then
        var status := bytes[i + 8];
        Parsed(Short(delta, status - status % 16, status % 16, bytes[i + 9], bytes[i + 10]), i + 12)
      else if kind == MEVT_NOP then Parsed(Nop(delta), i + 12)
      else if kind == MEVT_TEMPO then Parsed(Tempo(delta, low), i + 12)
      else if kind == MEVT_LONGMSG && i + 12 + Padded(low) <= |bytes| then
        Parsed(Long(delta, bytes[i + 12..i + 12 + low]), i + 12 + Padded(low))
      else Failed
  }

  lemma EventWordParts(e: Native)
    requires Encodable(e)
    ensures var w := EventWord(e);
            match e
            case Short(_, status, channel, param1, param2) =>
              && w[0] - w[0] % 16 == status && w[0] % 16 == channel
              && w[1] == param1 && w[2] == param2 && w[3] == MEVT_SHORTMSG
            case Nop(_) => w[3] == MEVT_NOP
            case Tempo(_, tempo) => w[3] == MEVT_TEMPO && DataAt(w, 0) == tempo
            case Long(_, bytes) => w[3] == MEVT_LONGMSG && DataAt(w, 0) == |bytes|
  {
    if e.Tempo? {
      DataRoundTrip(e.tempo, MEVT_TEMPO);
    } else if e.Long? {
      DataRoundTrip(|e.bytes|, MEVT_LONGMSG);
    }
  }

  // The words of an event, and its data, wherever it stands in the stream.
  lemma Layout(e: Native, before: seq<byte>, after: seq<byte>)
    requires Encodable(e)
    ensures var bytes := before + Encode(e) + after; var n := |before|;
            && |bytes| >= n + |Encode(e)| && |Encode(e)| == 12 + (if e.Long? then Padded(|e.bytes|) else 0)
            && bytes[n..n + 4] == Word(e.delta) && bytes[n + 8..n + 12] == EventWord(e)
            && (e.Long? ==> bytes[n + 12..n + 12 + |e.bytes|] == e.bytes)
  {
    hide Word, EventWord, Padded;
  }

  // What was written is read back, wherever it stands in the stream.
  lemma EncodeThenParse(e: Native, before: seq<byte>, after: seq<byte>)
    requires Encodable(e)
    ensures Parse(before + Encode(e) + after, |before|) == Parsed(e, |before| + |Encode(e)|)
    ensures |Encode(e)| % DWORD == 0
  {
    hide Word, WordAt, DataAt, EventWord, Padded, Encode, DataWord;
    var bytes := before + Encode(e) + after;
    var n := |before|;
    Layout(e, before, after);
    Slice(bytes, n, Word(e.delta));
    Slice(bytes, n + 8, EventWord(e));
    WordRoundTrip(e.delta);
    EventWordParts(e);
  }

  lemma Slice(bytes: seq<byte>, i: nat, w: seq<byte>)
    requires |w| == 4 && i + 4 <= |bytes| && bytes[i..i + 4] == w
    ensures WordAt(bytes, i) == WordAt(w, 0) && DataAt(bytes, i) == DataAt(w, 0)
    ensures bytes[i] == w[0] && bytes[i + 1] == w[1] && bytes[i + 2] == w[2] && bytes[i + 3] == w[3]
  {
    assert bytes[i] == bytes[i..i + 4][0] && bytes[i + 1] == bytes[i..i + 4][1];
    assert bytes[i + 2] == bytes[i..i + 4][2] && bytes[i + 3] == bytes[i..i + 4][3];
  }

  function EncodeAll(es: seq<Native>): seq<byte>
    requires forall e | e in es :: Encodable(e)
  {
    if es == [] then [] else Encode(es[0]) + EncodeAll(es[1..])
  }

  datatype ParsedAll = NoStream | Stream(events: seq<Native>)

  // How the device reads a stream from position i on.
  function ParseAll(bytes: seq<byte>, i: nat): ParsedAll
    decreases |bytes| - i
  {
    if i >= |bytes| then Stream([]) else
      match Parse(bytes, i)
      case Failed => NoStream
      case Parsed(e, next) =>
        match ParseAll(bytes, next)
        case NoStream => NoStream
        case Stream(es) => Stream([e] + es)
  }

  // Everything that was written is read back, in order.
  lemma {:induction false} StreamRoundTrip(es: seq<Native>, before: seq<byte>)
    requires forall e | e in es :: Encodable(e)
    ensures ParseAll(before + EncodeAll(es), |before|) == Stream(es)
  {
    hide Parse, Encode, Encodable;
    if es == [] {
      assert before + EncodeAll(es) == before;
    } else {
      var head, rest := Encode(es[0]), EncodeAll(es[1..]);
      EncodeThenParse(es[0], before, rest);
      StreamRoundTrip(es[1..], before + head);
      assert before + EncodeAll(es) == before + head + rest == (before + head) + rest;
      EncodeSize(es[0]);
    }
  }

  lemma EncodeSize(e: Native)
    requires Encodable(e)
    ensures |Encode(e)| >= 12
  {}

  // ---------- The buffer ----------

  class Buffer {
    var data: array<byte>
    var position: nat

    constructor ()
      ensures Valid() && Contents() == [] && fresh(data)
    {
      data := new byte[8192](_ => 0);   // BUFFER_INITIAL_SIZE
      position := 0;
    }

    ghost predicate Valid()
      reads this
    {
      position <= data.Length && data.Length % DWORD == 0
    }

    ghost function Contents(): seq<byte>
      requires position <= data.Length
      reads this, data
    {
      data[..position]
    }

    // AllocateBuffer keeps what is there.
    method AllocateBuffer(size: nat)
      requires Valid() && size >= data.Length
      modifies this`data
      ensures Valid() && fresh(data) && data.Length == Padded(size) && Contents() == old(Contents())
    {
      var bigger := new byte[Padded(size)](_ => 0);
      CopyIn(bigger, 0, data[..]);
      assert bigger[..position] == bigger[0..data.Length][..position];
      data := bigger;
    }

    // WriteBuffer
    method WriteBuffer(bytes: seq<byte>)
      requires Valid()
      modifies this, data
      ensures Valid() && Contents() == old(Contents()) + bytes
      ensures data == old(data) || fresh(data)
    {
      if position + |bytes| >= data.Length {
        AllocateBuffer(|bytes| + data.Length * 2);
      }
      CopyIn(data, position, bytes);
      assert data[..position + |bytes|] == data[..position] + data[position..position + |bytes|];
      position := position + |bytes|;
    }

    // WriteBufferPad
    method WriteBufferPad()
      requires Valid()
      modifies this`position, data
      ensures Valid() && position == Padded(old(position))
      ensures Contents() == old(Contents()) + Zeros(Padded(old(position)) - old(position))
    {
      var padding := Padded(position);
      PaddedFits(position, data.Length);
      var i := position;
      while i < padding
        invariant position <= i <= padding && data[..position] == old(Contents())
        invariant forall k | position <= k < i :: data[k] == 0
      {
        data[i] := 0;
        i := i + 1;
      }
      position := padding;
    }

    // SendShortMsg, SendNOPMsg, UpdateTempo and SendLongMsg, as far as the buffer goes.
    method Send(e: Native)
      requires Valid() && Encodable(e) && position % DWORD == 0
      modifies this, data
      ensures Valid() && position % DWORD == 0 && Contents() == old(Contents()) + Encode(e)
      ensures data == old(data) || fresh(data)
    {
      hide Word, EventWord, Padded, WordAt, Parse, DataWord;
      EncodeThenParse(e, [], []);
      ghost var was := Contents();
      var header := Word(e.delta) + Word(0) + EventWord(e);
      WriteBuffer(header);
      if e.Long? {
        WriteBuffer(e.bytes);
        PadOnly(position, |was| + 12, |e.bytes|);
        WriteBufferPad();
        assert Contents() == was + header + e.bytes + Zeros(Padded(|e.bytes|) - |e.bytes|);
        assert Contents() == was + Encode(e);
      } else {
        assert Encode(e) == header;
      }
    }
  }

  // memcpy
  method CopyIn(data: array<byte>, start: nat, bytes: seq<byte>)
    requires start + |bytes| <= data.Length
    modifies data
    ensures data[..start] == old(data[..start]) && data[start..start + |bytes|] == bytes
  {
    var i := 0;
    while i < |bytes|
      invariant 0 <= i <= |bytes| && data[..start] == old(data[..start]) && data[start..start + i] == bytes[..i]
    {
      data[start + i] := bytes[i];
      i := i + 1;
    }
  }

  lemma PaddedFits(n: nat, size: nat)
    requires n <= size && size % DWORD == 0
    ensures Padded(n) <= size
  {}

  lemma PadOnly(total: nat, start: nat, n: nat)
    requires start % DWORD == 0 && total == start + n
    ensures Padded(total) - total == Padded(n) - n
  {}
}
