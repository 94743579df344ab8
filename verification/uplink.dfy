// protocol.h and uplink.c: the key state of the player, sent whole in every packet, and the
// queue of key events that the game reads.
module InputPacket {
  type Byte = bv8

  // input_packet_t
  datatype Packet = Packet(bitfield: bv16, timestamp: bv32, seqNumber: bv16)

  // pack_input
  function Pack(p: Packet): (buf: seq<Byte>)
    ensures |buf| == 8
  {
    [((p.bitfield >> 8) & 0xFF) as Byte, (p.bitfield & 0xFF) as Byte,
     ((p.timestamp >> 24) & 0xFF) as Byte, ((p.timestamp >> 16) & 0xFF) as Byte,
     ((p.timestamp >> 8) & 0xFF) as Byte, (p.timestamp & 0xFF) as Byte,
     ((p.seqNumber >> 8) & 0xFF) as Byte, (p.seqNumber & 0xFF) as Byte]
  }

  // unpack_input
  function Unpack(buf: seq<Byte>): (p: Packet)
    requires |buf| >= 8
  {
    Packet((buf[0] as bv16 << 8) | buf[1] as bv16,
           (buf[2] as bv32 << 24) | (buf[3] as bv32 << 16) | (buf[4] as bv32 << 8) | buf[5] as bv32,
           (buf[6] as bv16 << 8) | buf[7] as bv16)
  }

  lemma PackThenUnpack(p: Packet)
    ensures Unpack(Pack(p)) == p
  {
    Join16(p.bitfield);
    Join16(p.seqNumber);
    Join32(p.timestamp);
  }

  // The fields stand in network byte order.
  lemma BigEndianFields(p: Packet)
    ensures var b := Pack(p);
      && p.bitfield == b[0] as bv16 * 256 + b[1] as bv16
      && p.timestamp == ((b[2] as bv32 * 256 + b[3] as bv32) * 256 + b[4] as bv32) * 256 + b[5] as bv32
      && p.seqNumber == b[6] as bv16 * 256 + b[7] as bv16
  {
    Bytes16(p.bitfield);
    Bytes16(p.seqNumber);
    Bytes32(p.timestamp);
  }

  lemma Bytes16(x: bv16)
    ensures (((x >> 8) & 0xFF) as bv8) as bv16 * 256 + ((x & 0xFF) as bv8) as bv16 == x
  {}

  lemma Bytes32(x: bv32)
    ensures (((((x >> 24) & 0xFF) as bv8) as bv32 * 256 + (((x >> 16) & 0xFF) as bv8) as bv32) * 256
             + (((x >> 8) & 0xFF) as bv8) as bv32) * 256 + ((x & 0xFF) as bv8) as bv32 == x
  {}

  lemma Join16(x: bv16)
    ensures ((((x >> 8) & 0xFF) as bv8) as bv16 << 8) | ((x & 0xFF) as bv8) as bv16 == x
  {}

  lemma Join32(x: bv32)
    ensures ((((x >> 24) & 0xFF) as bv8) as bv32 << 24) | ((((x >> 16) & 0xFF) as bv8) as bv32 << 16)
            | ((((x >> 8) & 0xFF) as bv8) as bv32 << 8) | ((x & 0xFF) as bv8) as bv32 == x
  {}

  lemma UnpackThenPack(buf: seq<Byte>)
    requires |buf| == 8
    ensures Pack(Unpack(buf)) == buf
  {
    Split16(buf[0], buf[1]);
    Split32(buf[2], buf[3], buf[4], buf[5]);
    Split16(buf[6], buf[7]);
  }

  lemma Split16(a: Byte, b: Byte)
    ensures var x := (a as bv16 << 8) | b as bv16;
            ((x >> 8) & 0xFF) as Byte == a && (x & 0xFF) as Byte == b
  {}

  lemma Split32(a: Byte, b: Byte, c: Byte, d: Byte)
    ensures var x := (a as bv32 << 24) | (b as bv32 << 16) | (c as bv32 << 8) | d as bv32;
            && ((x >> 24) & 0xFF) as Byte == a && ((x >> 16) & 0xFF) as Byte == b
            && ((x >> 8) & 0xFF) as Byte == c && (x & 0xFF) as Byte == d
  {}
}

module Uplink {
  import opened InputPacket

  const KEY_QUEUE_SIZE: nat := 64
  const UPLINK_DEDUP_MS: nat := 120
  const UINT64: nat := 0x1_0000_0000_0000_0000

  type Key = int

  datatype KeyEvent = KeyEvent(key: Key, pressed: bool)

  // ---------- What the packets mean ----------

  // The keys that have a bit of their own, in the order in which they are looked at.
  const KEYS: seq<(bv16, Key)> :=
    [(0x1, 0xad), (0x2, 0xaf), (0x4, 0xac), (0x8, 0xae), (0x10, 0x9d), (0x20, 32), (0x40, 44), (0x80, 46),
     (0x100, 0xb6), (0x200, 0xb8), (0x2000, 13), (0x4000, 27), (0x8000, 121)]

  predicate Bit(bitfield: bv16, mask: bv16) {
    bitfield & mask != 0
  }

  // Bits 10 to 12: the number of the weapon asked for.
  function Weapon(bitfield: bv16): (w: int)
    ensures 0 <= w < 8
  {
    ((bitfield >> 10) & 0x7) as int
  }

  // Whether a key is down after the events of a log.
  function Down(log: seq<KeyEvent>, key: Key): bool {
    log != [] && (if log[|log| - 1].key == key then log[|log| - 1].pressed else Down(log[..|log| - 1], key))
  }

  lemma DownAppend(log: seq<KeyEvent>, e: KeyEvent, key: Key)
    ensures Down(log + [e], key) == if e.key == key then e.pressed else Down(log, key)
  {
    assert (log + [e])[..|log|] == log;
  }

  // The events for the first n keys when the bits change from `prev` to `cur`.
  function Edges(cur: bv16, prev: bv16, n: nat): seq<KeyEvent>
    requires n <= |KEYS|
  {
    if n == 0 then [] else
      var (mask, key) := KEYS[n - 1];
      Edges(cur, prev, n - 1)
      + (if Bit(cur, mask) == Bit(prev, mask) then [] else [KeyEvent(key, Bit(cur, mask))])
  }

  // A new weapon is one key press; letting go of it is nothing.
  function WeaponPulse(cur: bv16, prev: bv16): seq<KeyEvent> {
    if Weapon(cur) != Weapon(prev) && Weapon(cur) > 0 then [KeyEvent(48 + Weapon(cur), true)] else []
  }

  // The key of weapon w is the digit w.
  lemma WeaponKeyIsDigit(cur: bv16, prev: bv16)
    ensures Weapon(cur) == Weapon(prev) || Weapon(cur) == 0 <==> WeaponPulse(cur, prev) == []
    ensures forall e | e in WeaponPulse(cur, prev) ::
      e.pressed && WeaponPulse(cur, prev) == [e] && e.key == "01234567"[Weapon(cur)] as int
  {}

  // Every bit of a packet is looked at: two that agree in all keys and in the weapon are the same.
  lemma EveryBitCounts(a: bv16, b: bv16)
    requires forall i | 0 <= i < |KEYS| :: Bit(a, KEYS[i].0) == Bit(b, KEYS[i].0)
    requires Weapon(a) == Weapon(b)
    ensures a == b
  {
    KeysUpTo(a, b);
    WeaponBits(a, b);
    SixteenBits(a, b);
  }

  lemma KeysUpTo(a: bv16, b: bv16)
    requires forall i | 0 <= i < |KEYS| :: Bit(a, KEYS[i].0) == Bit(b, KEYS[i].0)
    ensures SameBit(a, b, 0x1) && SameBit(a, b, 0x2) && SameBit(a, b, 0x4) && SameBit(a, b, 0x8)
    ensures SameBit(a, b, 0x10) && SameBit(a, b, 0x20) && SameBit(a, b, 0x40) && SameBit(a, b, 0x80)
    ensures SameBit(a, b, 0x100) && SameBit(a, b, 0x200)
    ensures SameBit(a, b, 0x2000) && SameBit(a, b, 0x4000) && SameBit(a, b, 0x8000)
  {
    hide Bit;
    assert KEYS[0].0 == 0x1 && KEYS[1].0 == 0x2 && KEYS[2].0 == 0x4 && KEYS[3].0 == 0x8;
    assert KEYS[4].0 == 0x10 && KEYS[5].0 == 0x20 && KEYS[6].0 == 0x40 && KEYS[7].0 == 0x80;
    assert KEYS[8].0 == 0x100 && KEYS[9].0 == 0x200;
    assert KEYS[10].0 == 0x2000 && KEYS[11].0 == 0x4000 && KEYS[12].0 == 0x8000;
  }

  predicate SameBit(a: bv16, b: bv16, mask: bv16) {
    Bit(a, mask) == Bit(b, mask)
  }

  lemma WeaponBits(a: bv16, b: bv16)
    requires Weapon(a) == Weapon(b)
    ensures a & 0x1c00 == b & 0x1c00
  {
    assert (a >> 10) & 0x7 == (b >> 10) & 0x7;
  }

  lemma SixteenBits(a: bv16, b: bv16)
    requires SameBit(a, b, 0x1) && SameBit(a, b, 0x2) && SameBit(a, b, 0x4) && SameBit(a, b, 0x8)
    requires SameBit(a, b, 0x10) && SameBit(a, b, 0x20) && SameBit(a, b, 0x40) && SameBit(a, b, 0x80)
    requires SameBit(a, b, 0x100) && SameBit(a, b, 0x200)
    requires SameBit(a, b, 0x2000) && SameBit(a, b, 0x4000) && SameBit(a, b, 0x8000)
    requires a & 0x1c00 == b & 0x1c00
    ensures a == b
  {}

  // The keys that are down are those of `cur` for the first n keys and of `prev` for the others.
  ghost predicate Tracks(log: seq<KeyEvent>, cur: bv16, prev: bv16, n: nat) {
    forall i | 0 <= i < |KEYS| :: Down(log, KEYS[i].1) == Bit(if i < n then cur else prev, KEYS[i].0)
  }

  lemma KeysDiffer(i: nat, j: nat)
    requires i < j < |KEYS|
    ensures KEYS[i].1 != KEYS[j].1
  {}

  lemma TracksStep(log: seq<KeyEvent>, cur: bv16, prev: bv16, n: nat)
    requires n < |KEYS| && Tracks(log, cur, prev, n)
    ensures Bit(cur, KEYS[n].0) == Bit(prev, KEYS[n].0) ==> Tracks(log, cur, prev, n + 1)
    ensures Tracks(log + [KeyEvent(KEYS[n].1, Bit(cur, KEYS[n].0))], cur, prev, n + 1)
  {
    hide Bit;
    var e := KeyEvent(KEYS[n].1, Bit(cur, KEYS[n].0));
    forall i | 0 <= i < |KEYS|
      ensures Down(log + [e], KEYS[i].1) == Bit(if i < n + 1 then cur else prev, KEYS[i].0)
    {
      DownAppend(log, e, KEYS[i].1);
      if i != n {
        KeysDiffer(if i < n then i else n, if i < n then n else i);
      }
    }
  }

  // A last event for a key that was not looked at yet is the one that its bit tells of.
  lemma LastEvent(log: seq<KeyEvent>, cur: bv16, prev: bv16, n: nat)
    requires n < |KEYS| && Tracks(log, cur, prev, n)
    ensures |log| > 0 && log[|log| - 1].key == KEYS[n].1 ==> log[|log| - 1].pressed == Bit(prev, KEYS[n].0)
  {
    hide Bit;
  }

  lemma TracksWeapon(log: seq<KeyEvent>, cur: bv16, prev: bv16, n: nat, w: int)
    requires Tracks(log, cur, prev, n) && 0 < w < 8
    ensures Tracks(log + [KeyEvent(48 + w, true)], cur, prev, n)
  {
    hide Bit;
    forall i | 0 <= i < |KEYS|
      ensures Down(log + [KeyEvent(48 + w, true)], KEYS[i].1) == Bit(if i < n then cur else prev, KEYS[i].0)
    {
      DownAppend(log, KeyEvent(48 + w, true), KEYS[i].1);
    }
  }

  // The keys that are down are those of `bitfield`.
  ghost predicate Shows(log: seq<KeyEvent>, bitfield: bv16) {
    Tracks(log, bitfield, bitfield, 0)
  }

  // The bit field of the last datagram of at least eight bytes; the rest of a longer one is cut off.
  function LastBitfield(datagrams: seq<seq<Byte>>, before: bv16): bv16 {
    if datagrams == [] then before
    else if |datagrams[|datagrams| - 1]| >= 8 then Unpack(datagrams[|datagrams| - 1]).bitfield
    else LastBitfield(datagrams[..|datagrams| - 1], before)
  }

  lemma NothingDown()
    ensures Shows([], 0)
  {
    forall i | 0 <= i < |KEYS| ensures !Bit(0, KEYS[i].0) {
      NoBit(KEYS[i].0);
    }
  }

  lemma NoBit(mask: bv16)
    ensures !Bit(0, mask)
  {}

  lemma NoEdges(log: seq<KeyEvent>, cur: bv16, prev: bv16)
    requires Shows(log, prev)
    ensures Tracks(log, cur, prev, 0) && log == log + Edges(cur, prev, 0)
  {}

  lemma NoneYet(cur: bv16, prev: bv16)
    ensures Edges(cur, prev, 0) == []
  {}

  lemma UnpackPrefix(datagram: seq<Byte>)
    requires |datagram| >= 8
    ensures Unpack(datagram[..8]) == Unpack(datagram)
  {}

  // How many of the datagrams are packets.
  function NumPackets(datagrams: seq<seq<Byte>>): nat {
    if datagrams == [] then 0
    else NumPackets(datagrams[..|datagrams| - 1]) + (if |datagrams[|datagrams| - 1]| >= 8 then 1 else 0)
  }

  function Wrap(i: nat): nat {
    if i < KEY_QUEUE_SIZE then i else i - KEY_QUEUE_SIZE
  }

  // The difference of unsigned 64-bit times is below the window.
  predicate WithinDedup(nowMs: nat, lastMs: nat) {
    (nowMs - lastMs) % UINT64 < UPLINK_DEDUP_MS
  }

  ghost predicate EndsWith(log: seq<KeyEvent>, pending: seq<KeyEvent>) {
    |pending| <= |log| && log[|log| - |pending|..] == pending
  }

  lemma EndsWithAppend(log: seq<KeyEvent>, pending: seq<KeyEvent>, e: KeyEvent)
    requires EndsWith(log, pending)
    ensures EndsWith(log + [e], pending + [e])
  {}

  // At most n events more wait than before, and none was dropped if there was room for n.
  predicate Room(before: nat, overflowedBefore: bool, after: nat, overflowed: bool, n: nat) {
    && after <= before + n
    && (before + n < KEY_QUEUE_SIZE ==> overflowed == overflowedBefore)
  }

  // The queue before a packet: its log, how many events wait, and whether one was ever dropped.
  datatype Start = Start(log: seq<KeyEvent>, waiting: nat, overflowed: bool)

  class KeyQueue {
    const queue: array<KeyEvent>   // g_queue
    var head: nat
    var tail: nat
    var prevBitfield: bv16
    var lastKey: Key               // g_last_enqueued_key, _pressed, _ms
    var lastPressed: bool
    var lastMs: nat
    ghost var log: seq<KeyEvent>       // every event ever put into the queue
    ghost var pending: seq<KeyEvent>   // those still in it
    ghost var overflowed: bool         // whether an event was ever dropped because it was full

    constructor ()
      ensures Valid() && log == [] && !overflowed && prevBitfield == 0 && fresh(queue)
    {
      queue := new KeyEvent[KEY_QUEUE_SIZE](_ => KeyEvent(0, false));
      head, tail, prevBitfield := 0, 0, 0;
      lastKey, lastPressed, lastMs := 0, false, 0;
      log, pending, overflowed := [], [], false;
      new;
      NothingDown();
    }

    ghost predicate Queued()
      reads this`head, this`tail, this`pending, queue
    {
      && queue.Length == KEY_QUEUE_SIZE && head < KEY_QUEUE_SIZE && |pending| < KEY_QUEUE_SIZE
      && tail == Wrap(head + |pending|)
      && forall i | 0 <= i < |pending| :: queue[Wrap(head + i)] == pending[i]
    }

    ghost predicate Logged()
      reads this, queue
    {
      && Queued() && EndsWith(log, pending)
      && (lastMs != 0 ==> |log| > 0 && log[|log| - 1] == KeyEvent(lastKey, lastPressed))
    }

    // What the game has read so far.
    ghost function Popped(): seq<KeyEvent>
      requires |pending| <= |log|
      reads this
    {
      log[..|log| - |pending|]
    }

    // The events say what the last packet said.
    ghost predicate Valid()
      reads this, queue
    {
      Logged() && (overflowed || Shows(log, prevBitfield))
    }

    // The part of enqueue_key_event that stores an event.
    method Put(e: KeyEvent) returns (full: bool)
      requires Queued()
      modifies this`tail, this`pending, queue
      ensures Queued() && full == (|old(pending)| >= KEY_QUEUE_SIZE - 1)
      ensures pending == if full then old(pending) else old(pending) + [e]
    {
      var nextTail := (tail + 1) % KEY_QUEUE_SIZE;
      assert nextTail == Wrap(tail + 1);
      if nextTail == head {
        return true;
      }
      queue[tail] := e;
      tail := nextTail;
      pending := pending + [e];
      full := false;
    }

    // enqueue_key_event
    method EnqueueKeyEvent(key: Key, pressed: bool) returns (ghost suppressed: bool)
      requires Logged()
      modifies this`tail, this`lastKey, this`lastPressed, this`lastMs, this`log, this`pending, this`overflowed, queue
      ensures Logged()
      ensures suppressed ==> |log| > 0 && log[|log| - 1] == KeyEvent(key, pressed)
      ensures !suppressed && |old(pending)| < KEY_QUEUE_SIZE - 1 ==>
                log == old(log) + [KeyEvent(key, pressed)] && pending == old(pending) + [KeyEvent(key, pressed)]
      ensures suppressed || |old(pending)| >= KEY_QUEUE_SIZE - 1 ==> log == old(log) && pending == old(pending)
      ensures overflowed == (old(overflowed) || (!suppressed && |old(pending)| >= KEY_QUEUE_SIZE - 1))
    {
      hide WithinDedup, EndsWith, KeyQueue.Queued;
      EndsWithAppend(log, pending, KeyEvent(key, pressed));
      var nowMs := ReadClock();
      if lastKey == key && lastPressed == pressed && lastMs != 0 && WithinDedup(nowMs, lastMs) {
        return true;
      }
      suppressed := false;
      var full := Put(KeyEvent(key, pressed));
      if full {
        overflowed := true;
        return;
      }
      log := log + [KeyEvent(key, pressed)];
      nowMs := ReadClock();
      lastKey, lastPressed, lastMs := key, pressed, nowMs;
    }

    // The monotonic clock in milliseconds, 0 when it cannot be read.
    method ReadClock() returns (ms: nat)
      ensures ms < UINT64
    {
      var reading: int := *;
      ms := if 0 <= reading < UINT64 then reading else 0;
    }

    // The first n keys of a packet have been looked at.
    ghost predicate Halfway(cur: bv16, prev: bv16, n: nat, start: Start)
      requires n <= |KEYS|
      reads this, queue
    {
      && Logged() && start.log <= log
      && (overflowed || (Tracks(log, cur, prev, n) && log == start.log + Edges(cur, prev, n)))
      && (!start.overflowed ==> Counted(start.waiting + |Edges(cur, prev, n)|))
    }

    lemma NotFull()
      requires Queued()
      ensures |pending| < KEY_QUEUE_SIZE
    {}

    // An event was dropped exactly if more than 63 would wait now, and else this many do.
    ghost predicate Counted(waiting: nat)
      reads this`pending, this`overflowed
    {
      if overflowed then waiting >= KEY_QUEUE_SIZE else |pending| == waiting < KEY_QUEUE_SIZE
    }

    // process_bit for the n-th key.
    method ProcessBit(cur: bv16, prev: bv16, mask: bv16, doomKey: Key, ghost n: nat, ghost start: Start)
      requires n < |KEYS| && KEYS[n] == (mask, doomKey)
      requires Halfway(cur, prev, n, start)
      modifies this`tail, this`lastKey, this`lastPressed, this`lastMs, this`log, this`pending, this`overflowed, queue
      ensures Halfway(cur, prev, n + 1, start) && (old(overflowed) ==> overflowed)
      ensures Room(|old(pending)|, old(overflowed), |pending|, overflowed, 1)
    {
      hide Bit, Tracks, WithinDedup, KeyQueue.Queued, EndsWith;
      if !overflowed {
        TracksStep(log, cur, prev, n);
        LastEvent(log, cur, prev, n);
      }
      if Bit(cur, mask) && !Bit(prev, mask) {
        // Never suppressed: the last event cannot have been the press of a key that is up.
        ghost var suppressed := EnqueueKeyEvent(doomKey, true);
      } else if !Bit(cur, mask) && Bit(prev, mask) {
        ghost var suppressed := EnqueueKeyEvent(doomKey, false);
      }
    }

    // process_weapon
    method ProcessWeapon(cur: bv16, prev: bv16) returns (ghost suppressed: bool)
      requires Logged() && (overflowed || Tracks(log, cur, prev, |KEYS|))
      modifies this`tail, this`lastKey, this`lastPressed, this`lastMs, this`log, this`pending, this`overflowed, queue
      ensures Logged() && (old(overflowed) ==> overflowed) && old(log) <= log
      ensures overflowed || Shows(log, cur)
      ensures Room(|old(pending)|, old(overflowed), |pending|, overflowed, 1)
      ensures !overflowed ==>
                log == old(log) + WeaponPulse(cur, prev)
                || (log == old(log) && |log| > 0 && WeaponPulse(cur, prev) == [log[|log| - 1]])
      ensures suppressed ==> |old(log)| > 0 && WeaponPulse(cur, prev) == [old(log)[|old(log)| - 1]]
      ensures !old(overflowed) ==> Counted(|old(pending)| + if suppressed then 0 else |WeaponPulse(cur, prev)|)
    {
      hide Bit;
      suppressed := false;
      var curW, prevW := Weapon(cur), Weapon(prev);
      if curW == prevW {
        return;
      }
      if curW > 0 && curW != prevW {
        if !overflowed {
          TracksWeapon(log, cur, prev, |KEYS|, curW);
        }
        suppressed := EnqueueKeyEvent(48 + curW, true);
      }
    }

    // The calls of process_bit for moving, firing and using.
    method ProcessMovement(cur: bv16, ghost start: Start)
      requires Halfway(cur, prevBitfield, 0, start)
      modifies this`tail, this`lastKey, this`lastPressed, this`lastMs, this`log, this`pending, this`overflowed, queue
      ensures Halfway(cur, prevBitfield, 8, start) && (old(overflowed) ==> overflowed)
      ensures Room(|old(pending)|, old(overflowed), |pending|, overflowed, 8)
    {
      hide KeyQueue.Halfway;
      ProcessBit(cur, prevBitfield, 0x1, 0xad, 0, start);
      ProcessBit(cur, prevBitfield, 0x2, 0xaf, 1, start);
      ProcessBit(cur, prevBitfield, 0x4, 0xac, 2, start);
      ProcessBit(cur, prevBitfield, 0x8, 0xae, 3, start);
      ProcessBit(cur, prevBitfield, 0x10, 0x9d, 4, start);
      ProcessBit(cur, prevBitfield, 0x20, 32, 5, start);
      ProcessBit(cur, prevBitfield, 0x40, 44, 6, start);
      ProcessBit(cur, prevBitfield, 0x80, 46, 7, start);
    }

    // Those for the other keys.
    method ProcessOthers(cur: bv16, ghost start: Start)
      requires Halfway(cur, prevBitfield, 8, start)
      modifies this`tail, this`lastKey, this`lastPressed, this`lastMs, this`log, this`pending, this`overflowed, queue
      ensures Halfway(cur, prevBitfield, 13, start) && (old(overflowed) ==> overflowed)
      ensures Room(|old(pending)|, old(overflowed), |pending|, overflowed, 5)
    {
      hide KeyQueue.Halfway;
      ProcessBit(cur, prevBitfield, 0x100, 0xb6, 8, start);
      ProcessBit(cur, prevBitfield, 0x200, 0xb8, 9, start);
      ProcessBit(cur, prevBitfield, 0x2000, 13, 10, start);
      ProcessBit(cur, prevBitfield, 0x4000, 27, 11, start);
      ProcessBit(cur, prevBitfield, 0x8000, 121, 12, start);
    }

    // One packet, as uplink_poll handles it.
    method Receive(packet: Packet) returns (ghost suppressed: bool)
      requires Valid()
      modifies this`tail, this`lastKey, this`lastPressed, this`lastMs, this`log, this`pending, this`overflowed,
               this`prevBitfield, queue
      ensures Valid() && (old(overflowed) ==> overflowed) && old(log) <= log && prevBitfield == packet.bitfield
      ensures Room(|old(pending)|, old(overflowed), |pending|, overflowed, 14)
      // Every change of a key is passed on, in the order of the table.  Only the press for a new
      // weapon may be missing, and then the event before it was the same.
      ensures !overflowed ==>
                var keys := old(log) + Edges(packet.bitfield, old(prevBitfield), |KEYS|);
                var pulse := WeaponPulse(packet.bitfield, old(prevBitfield));
                log == keys + pulse || (log == keys && |keys| > 0 && pulse == [keys[|keys| - 1]])
      // An event is dropped exactly if they do not all fit.
      ensures !old(overflowed) ==>
                var edges := Edges(packet.bitfield, old(prevBitfield), |KEYS|);
                var pulse := WeaponPulse(packet.bitfield, old(prevBitfield));
                var keys := old(log) + edges;
                && (overflowed <==> |old(pending)| + |edges| + (if suppressed then 0 else |pulse|) > KEY_QUEUE_SIZE - 1)
                && (suppressed && |old(pending)| + |edges| < KEY_QUEUE_SIZE ==>
                      |keys| > 0 && pulse == [keys[|keys| - 1]])
    {
      hide Bit, Edges, WeaponPulse, Tracks, Shows, KeyQueue.Queued, EndsWith;
      var cur := packet.bitfield;
      ghost var start := ProcessKeys(cur);
      suppressed := ProcessWeapon(cur, prevBitfield);
      prevBitfield := cur;
    }

    // All calls of process_bit for a packet.
    method ProcessKeys(cur: bv16) returns (ghost start: Start)
      requires Valid()
      modifies this`tail, this`lastKey, this`lastPressed, this`lastMs, this`log, this`pending, this`overflowed, queue
      ensures start == Start(old(log), |old(pending)|, old(overflowed)) && (old(overflowed) ==> overflowed)
      ensures Halfway(cur, prevBitfield, |KEYS|, start)
      ensures Room(|old(pending)|, old(overflowed), |pending|, overflowed, 13)
    {
      hide Bit, Edges, Tracks, Shows, KeyQueue.Queued, EndsWith;
      if !overflowed {
        NoEdges(log, cur, prevBitfield);
      }
      NoneYet(cur, prevBitfield);
      NotFull();
      start := Start(log, |pending|, overflowed);
      ProcessMovement(cur, start);
      ProcessOthers(cur, start);
    }

    // uplink_poll: takes in the datagrams that have arrived; `failed` is an error of recvfrom.
    // Nothing is dropped if there is room for fourteen events of each packet.
    method Poll(datagrams: seq<seq<Byte>>, failed: bool) returns (count: int)
      requires Valid()
      modifies this`tail, this`lastKey, this`lastPressed, this`lastMs, this`log, this`pending, this`overflowed,
               this`prevBitfield, queue
      ensures Valid() && (old(overflowed) ==> overflowed) && old(log) <= log
      ensures prevBitfield == LastBitfield(datagrams, old(prevBitfield))
      ensures !overflowed ==> Shows(log, LastBitfield(datagrams, old(prevBitfield)))
      ensures Room(|old(pending)|, old(overflowed), |pending|, overflowed, 14 * NumPackets(datagrams))
      ensures count == if failed then -1 else NumPackets(datagrams)
    {
      hide Shows, Unpack, KeyQueue.Logged;
      count := 0;
      ghost var before := prevBitfield;
      var i := 0;
      while i < |datagrams|
        invariant 0 <= i <= |datagrams| && Valid() && (old(overflowed) ==> overflowed) && old(log) <= log
        invariant prevBitfield == LastBitfield(datagrams[..i], before) && count == NumPackets(datagrams[..i])
        invariant Room(|old(pending)|, old(overflowed), |pending|, overflowed, 14 * count)
      {
        assert datagrams[..i + 1][..i] == datagrams[..i];
        var buf := if |datagrams[i]| > 8 then datagrams[i][..8] else datagrams[i];
        i := i + 1;
        if |buf| != 8 {
          continue;
        }
        UnpackPrefix(datagrams[i - 1]);
        ghost var suppressed := Receive(Unpack(buf));
        count := count + 1;
      }
      assert datagrams[..i] == datagrams;
      if failed {
        count := -1;
      }
    }

    // uplink_pop_key: the oldest event that was not read yet.
    method PopKey() returns (found: bool, event: KeyEvent)
      requires Valid()
      modifies this`head, this`pending
      ensures Valid() && found == (old(pending) != [])
      ensures found ==> event == old(pending)[0] && pending == old(pending)[1..] && Popped() == old(Popped()) + [event]
      ensures !found ==> pending == [] && Popped() == log
    {
      hide Tracks;
      event := KeyEvent(0, false);
      found := head != tail;
      if found {
        event := queue[head];
        head := (head + 1) % KEY_QUEUE_SIZE;
        pending := pending[1..];
      }
    }
  }

  // With no event dropped, once the game has read everything the keys that it sees as down are
  // those of the last packet that got through, whichever packets before it were lost.
  lemma DrainedShowsLastPacket(q: KeyQueue, sent: seq<Packet>, delivered: seq<nat>, before: bv16)
    requires q.Valid() && !q.overflowed && q.pending == []
    requires |delivered| > 0 && forall i | 0 <= i < |delivered| :: delivered[i] < |sent|
    requires q.prevBitfield
        == LastBitfield(seq(|delivered|, i requires 0 <= i < |delivered| => Pack(sent[delivered[i]])), before)
    ensures forall i | 0 <= i < |KEYS| ::
              Down(q.Popped(), KEYS[i].1) == Bit(sent[delivered[|delivered| - 1]].bitfield, KEYS[i].0)
  {
    hide Bit, Down, Pack, Unpack;
    PackThenUnpack(sent[delivered[|delivered| - 1]]);
    assert q.Popped() == q.log;
  }
}
