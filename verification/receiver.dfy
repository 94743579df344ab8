// ground/receiver.c: the reassembly state machine, and the method that polls the socket.
module Receiver {
  import opened Rtp

  // The reassembly buffer, and the units handed to the decoder so far.
  datatype Assembly = Assembly(buf: seq<byte>, delivered: seq<seq<byte>>)

  // recvfrom keeps at most UDP_BUF_SIZE bytes of a datagram.
  function Received(datagram: seq<byte>): seq<byte> {
    if |datagram| > UDP_BUF_SIZE then datagram[..UDP_BUF_SIZE] else datagram
  }

  // How many datagrams one poll reads before it stops.
  function Readable(socket: seq<seq<byte>>): (n: nat)
    ensures n <= |socket|
    ensures forall i | 0 <= i < n :: socket[i] != []
    ensures n < |socket| ==> socket[n] == []
  {
    if socket == [] || socket[0] == [] then 0 else 1 + Readable(socket[1..])
  }

  function ByteCount(datagrams: seq<seq<byte>>): nat {
    if datagrams == [] then 0
    else ByteCount(datagrams[..|datagrams| - 1]) + |Received(datagrams[|datagrams| - 1])|
  }

  // What the receive loop does with one non-empty datagram.
  function Feed(st: Assembly, datagram: seq<byte>): Assembly {
    var bytes := Received(datagram);
    var off := PayloadOffset(bytes);
    if off < 0 || HeaderOf(bytes).version != 2 || off == |bytes| then st
    else FeedPayload(st, bytes[off..])
  }

  function FeedPayload(st: Assembly, payload: seq<byte>): Assembly
    requires |payload| > 0
  {
    if IsAnnexB(payload) then st.(delivered := st.delivered + [payload])
    else if NalType(payload) == 28 && |payload| >= 2 then FeedFragment(st, payload)
    else if 1 <= NalType(payload) <= 23 then st.(delivered := st.delivered + [START_CODE + payload])
    else st
  }

  // An FU-A fragment: S restarts the buffer, E hands it to the decoder and clears it.
  function FeedFragment(st: Assembly, payload: seq<byte>): Assembly
    requires |payload| >= 2
  {
    var start := START_CODE + [OriginalNalHeader(payload[0], payload[1])];
    var buf := (if SBit(payload[1]) then start else st.buf) + payload[2..];
    if EBit(payload[1]) then Assembly([], st.delivered + [buf]) else st.(buf := buf)
  }

  function FeedAll(st: Assembly, datagrams: seq<seq<byte>>): Assembly {
    if datagrams == [] then st else Feed(FeedAll(st, datagrams[..|datagrams| - 1]), datagrams[|datagrams| - 1])
  }

  lemma {:induction false} FeedAllJoin(st: Assembly, a: seq<seq<byte>>, b: seq<seq<byte>>)
    ensures FeedAll(st, a + b) == FeedAll(FeedAll(st, a), b)
  {
    hide Feed;
    if b == [] {
      assert a + b == a;
    } else {
      var last := |b| - 1;
      FeedAllJoin(st, a, b[..last]);
      assert (a + b)[..|a + b| - 1] == a + b[..last];
    }
  }

  // ---------- The end of the buffer ----------

  const H264_BUF_SIZE: nat := 200000

  // How far into h264_buf one payload writes.
  function PayloadReach(st: Assembly, payload: seq<byte>): nat
    requires |payload| > 0
  {
    if IsAnnexB(payload) || NalType(payload) != 28 || |payload| < 2 then 0
    else (if SBit(payload[1]) then 5 else |st.buf|) + |payload| - 2
  }

  // How far into h264_buf one datagram writes.
  function Reach(st: Assembly, datagram: seq<byte>): nat {
    var bytes := Received(datagram);
    var off := PayloadOffset(bytes);
    if off < 0 || HeaderOf(bytes).version != 2 || off == |bytes| then 0
    else PayloadReach(st, bytes[off..])
  }

  // No write of a reception goes past the end of h264_buf.
  predicate FitsBuffer(st: Assembly, datagrams: seq<seq<byte>>) {
    datagrams == [] ||
    var last := |datagrams| - 1;
    FitsBuffer(st, datagrams[..last]) && Reach(FeedAll(st, datagrams[..last]), datagrams[last]) <= H264_BUF_SIZE
  }

  // One more datagram.
  lemma OneMore(st: Assembly, datagrams: seq<seq<byte>>, n: nat)
    requires n < |datagrams|
    ensures FeedAll(st, datagrams[..n + 1]) == Feed(FeedAll(st, datagrams[..n]), datagrams[n])
    ensures FitsBuffer(st, datagrams[..n + 1])
      == (FitsBuffer(st, datagrams[..n]) && Reach(FeedAll(st, datagrams[..n]), datagrams[n]) <= H264_BUF_SIZE)
    ensures ByteCount(datagrams[..n + 1]) == ByteCount(datagrams[..n]) + |Received(datagrams[n])|
  {
    hide Feed, Reach;
    assert datagrams[..n + 1][..n] == datagrams[..n];
  }

  lemma NoneYet(st: Assembly)
    ensures FeedAll(st, []) == st && FitsBuffer(st, []) && ByteCount([]) == 0
  {}

  class Poller {
    var socket: seq<seq<byte>>      // datagrams waiting in the socket
    const h264Buf: array<byte>
    var h264Len: nat
    var overran: bool               // a write has gone past the end of h264Buf
    var delivered: seq<seq<byte>>   // what avcodec_send_packet was given
    var bytesReceived: nat

    ghost predicate Valid()
      reads this
    {
      h264Len <= h264Buf.Length == H264_BUF_SIZE
    }

    ghost function State(): Assembly
      reads this, h264Buf
      requires Valid()
    {
      Assembly(h264Buf[..h264Len], delivered)
    }

    constructor ()
      ensures Valid() && fresh(h264Buf) && !overran
      ensures State() == Assembly([], []) && socket == [] && bytesReceived == 0
    {
      h264Buf := new byte[H264_BUF_SIZE];
      socket, h264Len, overran, delivered, bytesReceived := [], 0, false, [], 0;
    }

    // receiver_poll: drains the socket up to its end or to an empty datagram.  A write past the
    // end of the buffer is a fault of the program, after which nothing is known of its state.
    method Poll()
      requires Valid()
      modifies this, h264Buf
      ensures Valid()
      ensures var n := Readable(old(socket));
              && overran == (old(overran) || !FitsBuffer(old(State()), old(socket)[..n]))
              && (!overran ==> State() == FeedAll(old(State()), old(socket)[..n]))
              && bytesReceived == old(bytesReceived) + ByteCount(old(socket)[..n])
              && socket == (if n == |old(socket)| then [] else old(socket)[n + 1..])
    {
      hide Reach, Feed, FeedAll, FitsBuffer, ByteCount;
      ghost var n := 0;
      ghost var socket0, st0, bytes0, overran0 := socket, State(), bytesReceived, overran;
      NoneYet(st0);
      while socket != []
        invariant Valid()
        invariant 0 <= n <= |socket0| && socket == socket0[n..]
        invariant Readable(socket0) == n + Readable(socket)
        invariant overran == (overran0 || !FitsBuffer(st0, socket0[..n]))
        invariant !overran ==> State() == FeedAll(st0, socket0[..n])
        invariant bytesReceived == bytes0 + ByteCount(socket0[..n])
        decreases |socket|
      {
        var datagram := socket[0];
        socket := socket[1..];
        var bytes := Received(datagram);
        if |bytes| == 0 {
          return;
        }
        bytesReceived := bytesReceived + |bytes|;
        OneMore(st0, socket0, n);
        n := n + 1;
        HandleDatagram(datagram);
      }
    }

    // What Poll does with one datagram.
    method HandleDatagram(datagram: seq<byte>)
      requires Valid()
      modifies this`h264Len, this`delivered, this`overran, h264Buf
      ensures Valid()
      ensures overran == (old(overran) || Reach(old(State()), datagram) > H264_BUF_SIZE)
      ensures !overran ==> State() == Feed(old(State()), datagram)
    {
      hide PayloadReach, FeedPayload, PayloadOffset, HeaderOf;
      var bytes := Received(datagram);
      var off := PayloadOffset(bytes);
      if off < 0 || HeaderOf(bytes).version != 2 || off == |bytes| {
        return;
      }
      HandlePayload(bytes[off..]);
    }

    // The reassembly state machine of receiver_poll.
    method HandlePayload(payload: seq<byte>)
      requires Valid() && |payload| > 0
      modifies this`h264Len, this`delivered, this`overran, h264Buf
      ensures Valid()
      ensures overran == (old(overran) || PayloadReach(old(State()), payload) > H264_BUF_SIZE)
      ensures !overran ==> State() == FeedPayload(old(State()), payload)
    {
      if IsAnnexB(payload) {
        delivered := delivered + [payload];
      } else if NalType(payload) == 28 && |payload| >= 2 {
        if SBit(payload[1]) {
          h264Len := 0;
          Append(START_CODE);
          Append([OriginalNalHeader(payload[0], payload[1])]);
          Append(payload[2..]);
        } else {
          Append(payload[2..]);
        }
        ghost var header := START_CODE + [OriginalNalHeader(payload[0], payload[1])];
        assert !overran ==>
          h264Buf[..h264Len] == (if SBit(payload[1]) then header else old(h264Buf[..h264Len])) + payload[2..];
        if EBit(payload[1]) {
          delivered := delivered + [h264Buf[..h264Len]];
          h264Len := 0;
          assert h264Buf[..h264Len] == [];
        }
      } else if 1 <= NalType(payload) <= 23 {
        delivered := delivered + [START_CODE + payload];
      }
    }

    // memcpy to the end of what is in h264_buf.
    method Append(bytes: seq<byte>)
      requires Valid()
      modifies this`h264Len, this`overran, h264Buf
      ensures Valid()
      ensures overran == (old(overran) || old(h264Len) + |bytes| > H264_BUF_SIZE)
      ensures old(h264Len) + |bytes| <= H264_BUF_SIZE ==> h264Buf[..h264Len] == old(h264Buf[..h264Len]) + bytes
    {
      if h264Len + |bytes| > h264Buf.Length {
        overran := true;
        return;
      }
      forall k | 0 <= k < |bytes| {
        h264Buf[h264Len + k] := bytes[k];
      }
      h264Len := h264Len + |bytes|;
    }
  }
}
