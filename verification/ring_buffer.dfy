// ringbuffer.c: the lock-free ring of three frame slots between the game thread (the one
// producer) and the encoder thread (the one consumer), as a state machine.  Every access to
// shared memory is a step of its own, down to the single byte of a frame, and the steps of
// the two threads interleave in any order.
module RingBuffer {
  type byte = x: int | 0 <= x < 256

  const RING_BUFFER_SIZE: nat := 3
  const FRAME_BYTES: nat := 176 * 144 * 3
  const UINT32: nat := 0x1_0000_0000

  type Frame = f: seq<byte> | |f| == FRAME_BYTES witness seq(FRAME_BYTES, _ => 0)

  datatype Status = Empty | Writing | Ready | Reading

  datatype Slot = Slot(frameData: seq<byte>, status: Status, frameNumber: nat)

  // Where the producer is in ringbuffer_write_frame.
  datatype Producer =
    | PIdle
    | PLoaded(frame: Frame, slot: nat)             // g_write_index was read
    | PWriting(frame: Frame, slot: nat, k: nat)    // the slot is acquired, k bytes are stored
    | PNumbered(slot: nat)                         // frame_number is stored
    | PPublished(slot: nat)                        // the status is READY again

  // Where the consumer is in ringbuffer_read_frame.
  datatype Consumer =
    | CIdle
    | CLoaded(slot: nat)                           // g_read_index was read
    | CReading(slot: nat, out: seq<byte>)          // the slot is acquired, |out| bytes are copied
    | CNumbered(slot: nat, out: seq<byte>, number: nat)
    | CReleased(slot: nat, out: seq<byte>, number: nat)

  datatype State = State(
    slots: seq<Slot>,
    writeIndex: nat,
    readIndex: nat,
    frameCounter: nat,
    producer: Producer,
    consumer: Consumer,
    accepted: seq<Frame>,                // the frames whose slot was acquired, oldest first
    returned: seq<(seq<byte>, nat)>      // what ringbuffer_read_frame handed out, with its numbers
  )

  predicate TypeOk(s: State) {
    && |s.slots| == RING_BUFFER_SIZE && s.writeIndex < RING_BUFFER_SIZE && s.readIndex < RING_BUFFER_SIZE
    && (forall j | 0 <= j < RING_BUFFER_SIZE :: |s.slots[j].frameData| == FRAME_BYTES)
    && (!s.producer.PIdle? ==> s.producer.slot < RING_BUFFER_SIZE)
    && (s.producer.PWriting? ==> s.producer.k <= FRAME_BYTES)
    && (!s.consumer.CIdle? ==> s.consumer.slot < RING_BUFFER_SIZE)
    && (s.consumer.CReading? ==> |s.consumer.out| <= FRAME_BYTES)
  }

  // ringbuffer_init
  predicate Init(s: State) {
    && TypeOk(s)
    && (forall j | 0 <= j < RING_BUFFER_SIZE :: s.slots[j].status == Empty)
    && s.writeIndex == 0 && s.readIndex == 0 && s.frameCounter == 0
    && s.producer == PIdle && s.consumer == CIdle && s.accepted == [] && s.returned == []
  }

  // The next atomic step of ringbuffer_write_frame; `frame` is the converted image of a call
  // that starts now.
  function ProducerStep(s: State, frame: Frame): State
    requires TypeOk(s)
  {
    match s.producer
    case PIdle => s.(producer := PLoaded(frame, s.writeIndex))
    case PLoaded(f, slot) =>
      if s.slots[slot].status == Empty then
        s.(slots := s.slots[slot := s.slots[slot].(status := Writing)],
           producer := PWriting(f, slot, 0), accepted := s.accepted + [f])
      else s.(producer := PIdle)
    case PWriting(f, slot, k) =>
      if k < FRAME_BYTES then
        s.(slots := s.slots[slot := s.slots[slot].(frameData := s.slots[slot].frameData[k := f[k]])],
           producer := PWriting(f, slot, k + 1))
      else
        s.(slots := s.slots[slot := s.slots[slot].(frameNumber := s.frameCounter)],
           frameCounter := (s.frameCounter + 1) % UINT32, producer := PNumbered(slot))
    case PNumbered(slot) =>
      s.(slots := s.slots[slot := s.slots[slot].(status := Ready)], producer := PPublished(slot))
    case PPublished(slot) =>
      s.(writeIndex := (slot + 1) % RING_BUFFER_SIZE, producer := PIdle)
  }

  // The next atomic step of ringbuffer_read_frame.
  function ConsumerStep(s: State): State
    requires TypeOk(s)
  {
    match s.consumer
    case CIdle => s.(consumer := CLoaded(s.readIndex))
    case CLoaded(slot) =>
      if s.slots[slot].status == Ready then
        s.(slots := s.slots[slot := s.slots[slot].(status := Reading)], consumer := CReading(slot, []))
      else s.(consumer := CIdle)
    case CReading(slot, out) =>
      if |out| < FRAME_BYTES then
        s.(consumer := CReading(slot, out + [s.slots[slot].frameData[|out|]]))
      else s.(consumer := CNumbered(slot, out, s.slots[slot].frameNumber))
    case CNumbered(slot, out, number) =>
      s.(slots := s.slots[slot := s.slots[slot].(status := Empty)], consumer := CReleased(slot, out, number))
    case CReleased(slot, out, number) =>
      s.(readIndex := (slot + 1) % RING_BUFFER_SIZE, consumer := CIdle, returned := s.returned + [(out, number)])
  }

  ghost predicate Next(s: State, t: State) {
    && TypeOk(s)
    && ((exists frame: Frame :: t == ProducerStep(s, frame)) || t == ConsumerStep(s))
  }

  // ---------- The invariant ----------

  // How many frames were made READY, acquired for reading, and released.
  function Published(s: State): int {
    if s.producer.PWriting? || s.producer.PNumbered? then |s.accepted| - 1 else |s.accepted|
  }

  function Taken(s: State): int {
    if s.consumer.CReading? || s.consumer.CNumbered? || s.consumer.CReleased? then |s.returned| + 1 else |s.returned|
  }

  function Released(s: State): int {
    if s.consumer.CReleased? then |s.returned| + 1 else |s.returned|
  }

  // Frame i lives in slot i mod 3 from the time it is accepted until it is released.
  function StatusOf(s: State, i: int): Status {
    if i < Taken(s) then Reading else if i < Published(s) then Ready else Writing
  }

  ghost predicate Counters(s: State) {
    && 0 <= Released(s) <= Taken(s) <= Published(s) <= |s.accepted| <= Released(s) + RING_BUFFER_SIZE
    && s.writeIndex
       == (if s.producer.PIdle? || s.producer.PLoaded? then |s.accepted| else |s.accepted| - 1) % RING_BUFFER_SIZE
    && s.readIndex == |s.returned| % RING_BUFFER_SIZE
    && s.frameCounter == (if s.producer.PWriting? then |s.accepted| - 1 else |s.accepted|) % UINT32
    && (!s.producer.PIdle? ==> s.producer.slot == s.writeIndex)
    && (!s.consumer.CIdle? ==> s.consumer.slot == s.readIndex)
  }

  // What slot i mod 3 holds while frame i is the one it serves.
  ghost predicate SlotServes(s: State, i: int)
    requires TypeOk(s) && 0 <= i
  {
    var slot := s.slots[i % RING_BUFFER_SIZE];
    if i >= |s.accepted| then slot.status == Empty else
      && slot.status == StatusOf(s, i)
      && (i < Published(s) ==> slot.frameData == s.accepted[i] && slot.frameNumber == i % UINT32)
  }

  ghost predicate SlotsOk(s: State)
    requires TypeOk(s)
  {
    SlotServes(s, Released(s)) && SlotServes(s, Released(s) + 1) && SlotServes(s, Released(s) + 2)
  }

  ghost predicate ThreadsOk(s: State)
    requires TypeOk(s)
  {
    && (s.producer.PWriting? ==>
          && |s.accepted| > 0 && s.producer.frame == s.accepted[|s.accepted| - 1]
          && s.slots[s.producer.slot].frameData[..s.producer.k] == s.producer.frame[..s.producer.k])
    && (s.producer.PNumbered? ==>
          && |s.accepted| > 0 && s.slots[s.producer.slot].frameData == s.accepted[|s.accepted| - 1]
          && s.slots[s.producer.slot].frameNumber == (|s.accepted| - 1) % UINT32)
    && (s.producer.PPublished? ==> |s.accepted| > 0)
    && (s.consumer.CReading? ==>
          |s.returned| < |s.accepted| && s.consumer.out == s.accepted[|s.returned|][..|s.consumer.out|])
    && (s.consumer.CNumbered? || s.consumer.CReleased? ==>
          && |s.returned| < |s.accepted| && s.consumer.out == s.accepted[|s.returned|]
          && s.consumer.number == |s.returned| % UINT32)
  }

  // The frames handed out are exactly the first frames accepted, unbroken, numbered from 0.
  ghost predicate ReturnedOk(s: State) {
    && |s.returned| <= |s.accepted|
    && forall i | 0 <= i < |s.returned| :: s.returned[i] == (s.accepted[i], i % UINT32)
  }

  ghost predicate Inv(s: State) {
    TypeOk(s) && Counters(s) && SlotsOk(s) && ThreadsOk(s) && ReturnedOk(s)
  }

  lemma InitInv(s: State)
    requires Init(s)
    ensures Inv(s)
  {}

  lemma WrapSlot(n: nat)
    ensures (n % RING_BUFFER_SIZE + 1) % RING_BUFFER_SIZE == (n + 1) % RING_BUFFER_SIZE
    ensures n % 3 != (n + 1) % 3 && n % 3 != (n + 2) % 3 && (n + 1) % 3 != (n + 2) % 3 && (n + 3) % 3 == n % 3
  {}

  lemma PIdleInv(s: State, frame: Frame)
    requires Inv(s) && s.producer.PIdle?
    ensures Inv(ProducerStep(s, frame))
  {
    hide SlotServes;
    SlotsKept(s, ProducerStep(s, frame));
  }

  // Two states that agree on the slots and on who uses them.
  lemma SlotsKept(s: State, t: State)
    requires TypeOk(s) && TypeOk(t) && Counters(s) && SlotsOk(s)
    requires t.slots == s.slots && t.accepted == s.accepted && Published(t) == Published(s)
    requires Taken(t) == Taken(s) && Released(t) == Released(s)
    ensures SlotsOk(t)
  {}

  lemma PLoadedInv(s: State, frame: Frame)
    requires Inv(s) && s.producer.PLoaded?
    ensures Inv(ProducerStep(s, frame))
  {
    var t := ProducerStep(s, frame);
    if s.slots[s.producer.slot].status == Empty {
      AcquireSlots(s, frame);
      hide SlotServes;
    } else {
      hide SlotServes;
      SlotsKept(s, t);
    }
  }

  // The slot at the write index is free exactly when fewer than three frames are outstanding.
  lemma WriteSlotFree(s: State)
    requires Inv(s) && s.producer.PLoaded?
    ensures s.slots[s.producer.slot].status == Empty <==> |s.accepted| < Released(s) + RING_BUFFER_SIZE
  {
    hide ThreadsOk, ReturnedOk;
    WrapSlot(Released(s));
  }

  lemma AcquireSlots(s: State, frame: Frame)
    requires Inv(s) && s.producer.PLoaded? && s.slots[s.producer.slot].status == Empty
    ensures TypeOk(ProducerStep(s, frame)) && SlotsOk(ProducerStep(s, frame))
    ensures |s.accepted| < Released(s) + RING_BUFFER_SIZE
  {
    hide ThreadsOk, ReturnedOk;
    WriteSlotFree(s);
    WrapSlot(Released(s));
  }

  // Storing into the slot being written leaves what the others serve alone.
  lemma WritingServes(s: State, frame: Frame, i: int)
    requires Inv(s) && s.producer.PWriting? && Released(s) <= i < Released(s) + 3 && SlotServes(s, i)
    ensures TypeOk(ProducerStep(s, frame)) && SlotServes(ProducerStep(s, frame), i)
  {
    hide ThreadsOk, ReturnedOk, SlotsOk;
    if i < Published(s) { WrapApart(i, Published(s)); }
  }

  lemma WrapApart(a: nat, b: nat)
    requires a < b < a + RING_BUFFER_SIZE
    ensures a % RING_BUFFER_SIZE != b % RING_BUFFER_SIZE
  {}

  lemma WritingSlots(s: State, frame: Frame)
    requires Inv(s) && s.producer.PWriting?
    ensures TypeOk(ProducerStep(s, frame)) && SlotsOk(ProducerStep(s, frame))
  {
    hide ThreadsOk, ReturnedOk, SlotServes;
    WritingServes(s, frame, Released(s));
    WritingServes(s, frame, Released(s) + 1);
    WritingServes(s, frame, Released(s) + 2);
  }

  lemma WritingThreads(s: State, frame: Frame)
    requires Inv(s) && s.producer.PWriting?
    ensures TypeOk(ProducerStep(s, frame)) && ThreadsOk(ProducerStep(s, frame))
  {
    hide SlotsOk, ReturnedOk;
    if s.producer.k < FRAME_BYTES {
      StoreExtends(s.slots[s.producer.slot].frameData, s.producer.frame, s.producer.k);
    } else {
      assert s.producer.frame[..FRAME_BYTES] == s.producer.frame;
    }
  }

  lemma PWritingInv(s: State, frame: Frame)
    requires Inv(s) && s.producer.PWriting?
    ensures Inv(ProducerStep(s, frame))
  {
    hide SlotsOk, ThreadsOk;
    WritingSlots(s, frame);
    WritingThreads(s, frame);
  }

  lemma StoreExtends(data: seq<byte>, frame: seq<byte>, k: nat)
    requires k < |data| == |frame| && data[..k] == frame[..k]
    ensures data[k := frame[k]][..k + 1] == frame[..k + 1]
  {
    assert data[k := frame[k]][..k] == data[..k];
  }

  // A slot is never written while it is being read.
  lemma ReaderElsewhere(s: State)
    requires Inv(s)
    ensures s.producer.PWriting? || s.producer.PNumbered? ==> s.slots[s.producer.slot].status == Writing
    ensures s.consumer.CReading? || s.consumer.CNumbered? ==> s.slots[s.consumer.slot].status == Reading
  {
    hide ThreadsOk, ReturnedOk;
    WrapSlot(Released(s));
  }

  lemma NumberedSlots(s: State, frame: Frame)
    requires Inv(s) && s.producer.PNumbered?
    ensures TypeOk(ProducerStep(s, frame)) && SlotsOk(ProducerStep(s, frame))
  {
    hide ReturnedOk;
    WrapSlot(Released(s));
  }

  lemma PNumberedInv(s: State, frame: Frame)
    requires Inv(s) && s.producer.PNumbered?
    ensures Inv(ProducerStep(s, frame))
  {
    hide SlotServes;
    NumberedSlots(s, frame);
  }

  lemma PPublishedInv(s: State, frame: Frame)
    requires Inv(s) && s.producer.PPublished?
    ensures Inv(ProducerStep(s, frame))
  {
    hide SlotServes;
    SlotsKept(s, ProducerStep(s, frame));
    WrapSlot(|s.accepted| - 1);
  }

  lemma CIdleInv(s: State)
    requires Inv(s) && s.consumer.CIdle?
    ensures Inv(ConsumerStep(s))
  {
    hide SlotServes;
    SlotsKept(s, ConsumerStep(s));
  }

  // The slot at the read index is READY exactly when a published frame was not read yet.
  lemma ReadSlotReady(s: State)
    requires Inv(s) && s.consumer.CLoaded?
    ensures s.slots[s.consumer.slot].status == Ready <==> |s.returned| < Published(s)
  {
    hide ThreadsOk;
    WrapSlot(Released(s));
  }

  lemma TakenSlots(s: State)
    requires Inv(s) && s.consumer.CLoaded? && s.slots[s.consumer.slot].status == Ready
    ensures TypeOk(ConsumerStep(s)) && SlotsOk(ConsumerStep(s)) && |s.returned| < Published(s)
  {
    hide ThreadsOk, ReturnedOk;
    ReadSlotReady(s);
    WrapSlot(Released(s));
  }

  lemma CLoadedInv(s: State)
    requires Inv(s) && s.consumer.CLoaded?
    ensures Inv(ConsumerStep(s))
  {
    hide SlotServes;
    if s.slots[s.consumer.slot].status == Ready {
      TakenSlots(s);
    } else {
      SlotsKept(s, ConsumerStep(s));
    }
  }

  // While it is read, the slot holds the frame it serves.
  lemma ReadingSlot(s: State)
    requires Inv(s) && s.consumer.CReading?
    ensures |s.returned| < |s.accepted| && s.slots[s.consumer.slot].frameData == s.accepted[|s.returned|]
    ensures s.slots[s.consumer.slot].frameNumber == |s.returned| % UINT32
  {
    hide ThreadsOk, ReturnedOk;
  }

  lemma CReadingInv(s: State)
    requires Inv(s) && s.consumer.CReading?
    ensures Inv(ConsumerStep(s))
  {
    hide SlotServes;
    ReadingSlot(s);
    SlotsKept(s, ConsumerStep(s));
    var frame := s.accepted[|s.returned|];
    if |s.consumer.out| < FRAME_BYTES {
      assert frame[..|s.consumer.out| + 1] == frame[..|s.consumer.out|] + [frame[|s.consumer.out|]];
    } else {
      assert frame[..FRAME_BYTES] == frame;
    }
  }

  lemma ReleasedSlots(s: State)
    requires Inv(s) && s.consumer.CNumbered?
    ensures TypeOk(ConsumerStep(s)) && SlotsOk(ConsumerStep(s))
  {
    hide ThreadsOk, ReturnedOk;
    WrapSlot(Released(s));
  }

  lemma CNumberedInv(s: State)
    requires Inv(s) && s.consumer.CNumbered?
    ensures Inv(ConsumerStep(s))
  {
    hide SlotServes;
    ReleasedSlots(s);
    ReaderElsewhere(s);
  }

  lemma CReleasedInv(s: State)
    requires Inv(s) && s.consumer.CReleased?
    ensures Inv(ConsumerStep(s))
  {
    hide SlotServes;
    SlotsKept(s, ConsumerStep(s));
    WrapSlot(|s.returned|);
  }

  lemma NextInv(s: State, t: State)
    requires Inv(s) && Next(s, t)
    ensures Inv(t)
  {
    hide Inv, ConsumerStep, ProducerStep;
    if t == ConsumerStep(s) {
      match s.consumer {
        case CIdle => CIdleInv(s);
        case CLoaded(_) => CLoadedInv(s);
        case CReading(_, _) => CReadingInv(s);
        case CNumbered(_, _, _) => CNumberedInv(s);
        case CReleased(_, _, _) => CReleasedInv(s);
      }
    } else {
      var frame: Frame :| t == ProducerStep(s, frame);
      match s.producer {
        case PIdle => PIdleInv(s, frame);
        case PLoaded(_, _) => PLoadedInv(s, frame);
        case PWriting(_, _, _) => PWritingInv(s, frame);
        case PNumbered(_) => PNumberedInv(s, frame);
        case PPublished(_) => PPublishedInv(s, frame);
      }
    }
  }

  // ---------- Runs ----------

  // Any interleaving of the two threads, from ringbuffer_init on.
  ghost predicate IsRun(run: seq<State>) {
    |run| > 0 && Init(run[0]) && forall i | 0 <= i < |run| - 1 :: Next(run[i], run[i + 1])
  }

  lemma {:induction false} RunInv(run: seq<State>, n: nat)
    requires IsRun(run) && n < |run|
    ensures Inv(run[n])
  {
    hide Inv, Next;
    if n == 0 {
      InitInv(run[0]);
    } else {
      RunInv(run, n - 1);
      assert Next(run[n - 1], run[n - 1 + 1]);
      NextInv(run[n - 1], run[n]);
    }
  }

  // In every state of every run: the frames handed out are a prefix of the frames accepted,
  // unbroken and numbered 0, 1, 2, ... modulo 2^32, and no slot is written while it is read.
  lemma RunsAreSafe(run: seq<State>, n: nat)
    requires IsRun(run) && n < |run|
    ensures var s := run[n];
            && |s.returned| <= |s.accepted|
            && (forall i | 0 <= i < |s.returned| :: s.returned[i] == (s.accepted[i], i % UINT32))
            && (s.producer.PWriting? || s.producer.PNumbered? ==>
                  s.consumer.CReading? || s.consumer.CNumbered? ==> s.producer.slot != s.consumer.slot)
  {
    RunInv(run, n);
    ReaderElsewhere(run[n]);
  }

  // A write is dropped exactly when three accepted frames are not yet released by the reader.
  lemma DropsOnlyWhenFull(run: seq<State>, n: nat, frame: Frame)
    requires IsRun(run) && n < |run| && run[n].producer.PLoaded?
    ensures TypeOk(run[n])
    ensures ProducerStep(run[n], frame).accepted == run[n].accepted <==>
            |run[n].accepted| == Released(run[n]) + RING_BUFFER_SIZE
  {
    RunInv(run, n);
    WriteSlotFree(run[n]);
    var f := run[n].producer.frame;
    assert |run[n].accepted + [f]| == |run[n].accepted| + 1;
  }

  // A read finds nothing exactly when every published frame was handed out.
  lemma FailsOnlyWhenEmpty(run: seq<State>, n: nat)
    requires IsRun(run) && n < |run| && run[n].consumer.CLoaded?
    ensures TypeOk(run[n])
    ensures ConsumerStep(run[n]).consumer == CIdle <==> |run[n].returned| == Published(run[n])
  {
    RunInv(run, n);
    ReadSlotReady(run[n]);
  }

  // A step changes at most one slot's status, and only to the next one of the cycle
  // EMPTY, WRITING, READY, READING.
  function Following(st: Status): Status {
    match st
    case Empty => Writing
    case Writing => Ready
    case Ready => Reading
    case Reading => Empty
  }

  lemma StatusCycle(run: seq<State>, n: nat, j: nat)
    requires IsRun(run) && n + 1 < |run| && j < RING_BUFFER_SIZE
    ensures TypeOk(run[n]) && TypeOk(run[n + 1])
    ensures run[n + 1].slots[j].status == run[n].slots[j].status ||
            run[n + 1].slots[j].status == Following(run[n].slots[j].status)
  {
    hide SlotServes, ThreadsOk, ReturnedOk;
    RunInv(run, n);
    RunInv(run, n + 1);
    ReaderElsewhere(run[n]);
    assert Next(run[n], run[n + 1]);
  }
}
