// downlink.c: what is sent for a list of NAL units, and the method that sends it.
module Downlink {
  import opened Rtp

  type Nal = seq<byte>
  type Packet = seq<byte>

  // ---------- What is sent ----------

  // The FU-A packets for `rest`, the bytes of a long NAL that are still to be sent.
  function Fragments(header: byte, rest: seq<byte>, first: bool, isLastNal: bool,
                     seqNo: nat, timestamp: nat): (packets: seq<Packet>)
    requires |rest| > 0 && seqNo < UINT16 && timestamp < 0x1_0000_0000
    decreases |rest|
  {
    var size := if |rest| > MAX_FRAG_PAYLOAD then MAX_FRAG_PAYLOAD else |rest|;
    var last := size == |rest|;
    var packet := PackRtpHeader(seqNo, timestamp, if isLastNal && last then 1 else 0)
                  + [FuIndicator(header), FuHeader(header, first, last)] + rest[..size];
    if last then [packet]
    else [packet] + Fragments(header, rest[size..], false, isLastNal, (seqNo + 1) % UINT16, timestamp)
  }

  // The packets of one NAL: none when it is empty, one when it fits, fragments otherwise.
  function NalPackets(nal: Nal, isLastNal: bool, seqNo: nat, timestamp: nat): (packets: seq<Packet>)
    requires seqNo < UINT16 && timestamp < 0x1_0000_0000
  {
    if |nal| == 0 then []
    else if |nal| <= MAX_PAYLOAD_SIZE then [PackRtpHeader(seqNo, timestamp, if isLastNal then 1 else 0) + nal]
    else Fragments(nal[0], nal[1..], true, isLastNal, seqNo, timestamp)
  }

  // The packets of the first n NALs, one group for each NAL.
  function Groups(nals: seq<Nal>, n: nat, seqNo: nat, timestamp: nat): (groups: seq<seq<Packet>>)
    requires n <= |nals| && seqNo < UINT16 && timestamp < 0x1_0000_0000
    ensures |groups| == n
  {
    if n == 0 then [] else
      var before := Groups(nals, n - 1, seqNo, timestamp);
      before + [NalPackets(nals[n - 1], n == |nals|, (seqNo + |Flatten(before)|) % UINT16, timestamp)]
  }

  // The packets for the bytes of a long NAL from `offset` on.
  function Rest(nal: Nal, offset: nat, first: bool, isLastNal: bool, seqNo: nat, timestamp: nat): seq<Packet>
    requires offset <= |nal| && |nal| > 0 && seqNo < UINT16 && timestamp < 0x1_0000_0000
  {
    if offset == |nal| then [] else Fragments(nal[0], nal[offset..], first, isLastNal, seqNo, timestamp)
  }

  lemma RestAll(nal: Nal, isLastNal: bool, seqNo: nat, timestamp: nat)
    requires |nal| > MAX_PAYLOAD_SIZE && seqNo < UINT16 && timestamp < 0x1_0000_0000
    ensures Rest(nal, 1, true, isLastNal, seqNo, timestamp) == NalPackets(nal, isLastNal, seqNo, timestamp)
  {
    hide Fragments;
  }

  lemma RestNone(nal: Nal, first: bool, isLastNal: bool, seqNo: nat, timestamp: nat)
    requires |nal| > 0 && seqNo < UINT16 && timestamp < 0x1_0000_0000
    ensures Rest(nal, |nal|, first, isLastNal, seqNo, timestamp) == []
  {}

  // The first of them, and the others.
  lemma RestStep(nal: Nal, offset: nat, first: bool, isLastNal: bool, seqNo: nat, timestamp: nat)
    requires offset < |nal| && seqNo < UINT16 && timestamp < 0x1_0000_0000
    ensures var size := if |nal| - offset > MAX_FRAG_PAYLOAD then MAX_FRAG_PAYLOAD else |nal| - offset;
            var last := size == |nal| - offset;
            var packet := PackRtpHeader(seqNo, timestamp, if isLastNal && last then 1 else 0)
                          + [FuIndicator(nal[0]), FuHeader(nal[0], first, last)] + nal[offset..offset + size];
            Rest(nal, offset, first, isLastNal, seqNo, timestamp) ==
            [packet] + Rest(nal, offset + size, false, isLastNal, (seqNo + 1) % UINT16, timestamp)
  {
    hide PackRtpHeader, FuIndicator, FuHeader;
    var size := if |nal| - offset > MAX_FRAG_PAYLOAD then MAX_FRAG_PAYLOAD else |nal| - offset;
    assert nal[offset..][..size] == nal[offset..offset + size];
    assert nal[offset..][size..] == nal[offset + size..];
  }

  function Flatten<T>(groups: seq<seq<T>>): seq<T> {
    if groups == [] then [] else Flatten(groups[..|groups| - 1]) + groups[|groups| - 1]
  }

  lemma FlattenNone<T>()
    ensures Flatten<T>([]) == []
  {}

  lemma FlattenAppend<T>(groups: seq<seq<T>>, group: seq<T>)
    ensures Flatten(groups + [group]) == Flatten(groups) + group
  {
    assert (groups + [group])[..|groups|] == groups;
  }

  lemma {:induction false} FlattenJoin<T>(a: seq<seq<T>>, b: seq<seq<T>>)
    ensures Flatten(a + b) == Flatten(a) + Flatten(b)
  {
    if b == [] {
      assert a + b == a;
    } else {
      FlattenJoin(a, b[..|b| - 1]);
      FlattenAppend(a + b[..|b| - 1], b[|b| - 1]);
      assert a + b == (a + b[..|b| - 1]) + [b[|b| - 1]];
    }
  }

  // The groups of n NALs are those of n - 1 of them, and one more.
  lemma GroupsLast(nals: seq<Nal>, n: nat, seqNo: nat, timestamp: nat)
    requires 0 < n <= |nals| && seqNo < UINT16 && timestamp < 0x1_0000_0000
    ensures var earlier := Groups(nals, n - 1, seqNo, timestamp);
            Groups(nals, n, seqNo, timestamp) == earlier
              + [NalPackets(nals[n - 1], n == |nals|, (seqNo + |Flatten(earlier)|) % UINT16, timestamp)]
  {
    hide NalPackets, Flatten;
  }

  // Earlier groups come first.
  lemma {:induction false} GroupsPrefix(nals: seq<Nal>, i: nat, n: nat, seqNo: nat, timestamp: nat)
    requires i < n <= |nals| && seqNo < UINT16 && timestamp < 0x1_0000_0000
    ensures Flatten(Groups(nals, i + 1, seqNo, timestamp)) <= Flatten(Groups(nals, n, seqNo, timestamp))
  {
    hide NalPackets, Flatten, Groups;
    if i + 1 < n {
      GroupsPrefix(nals, i, n - 1, seqNo, timestamp);
      GroupsLast(nals, n, seqNo, timestamp);
      var before := Groups(nals, n - 1, seqNo, timestamp);
      FlattenAppend(before, NalPackets(nals[n - 1], n == |nals|, (seqNo + |Flatten(before)|) % UINT16, timestamp));
    }
  }

  class Sender {
    var rtpSeqNumber: nat
    var bytesSent: nat
    var sent: seq<Packet>   // the datagrams handed to the network, oldest first

    ghost predicate Valid()
      reads this
    {
      rtpSeqNumber < UINT16
    }

    // Since a state with log sent0, number seq0 and byte count bytes0, exactly `packets`
    // were handed over.
    ghost predicate HasSent(sent0: seq<Packet>, seq0: nat, bytes0: nat, packets: seq<Packet>)
      reads this
    {
      && sent == sent0 + packets
      && rtpSeqNumber == (seq0 + |packets|) % UINT16
      && bytesSent == bytes0 + |Flatten(packets)|
    }

    constructor ()
      ensures Valid() && rtpSeqNumber == 0 && bytesSent == 0 && sent == []
    {
      rtpSeqNumber, bytesSent, sent := 0, 0, [];
    }

    // sendto and the bookkeeping after it: the whole datagram leaves, or the call fails.
    method SendTo(packet: Packet, ghost sent0: seq<Packet>, ghost seq0: nat, ghost bytes0: nat,
                  ghost packets: seq<Packet>) returns (ok: bool)
      requires HasSent(sent0, seq0, bytes0, packets)
      modifies this
      ensures HasSent(sent0, seq0, bytes0, if ok then packets + [packet] else packets)
    {
      ok := *;
      if !ok {
        return;
      }
      FlattenAppend(packets, packet);
      sent := sent + [packet];
      bytesSent := bytesSent + |packet|;
      rtpSeqNumber := (rtpSeqNumber + 1) % UINT16;
    }

    // The fragmentation loop of downlink_send_nals for one long NAL.
    method SendFragments(nal: Nal, isLastNal: bool, timestamp: nat) returns (count: int, ghost packets: seq<Packet>)
      requires Valid() && |nal| > MAX_PAYLOAD_SIZE && timestamp < 0x1_0000_0000
      modifies this
      ensures HasSent(old(sent), old(rtpSeqNumber), old(bytesSent), packets)
      ensures var group := NalPackets(nal, isLastNal, old(rtpSeqNumber), timestamp);
              && packets <= group
              && if count < 0 then count == -1 && |packets| < |group| else count == |group| == |packets|
    {
      hide PackRtpHeader, FuIndicator, FuHeader, Fragments, Flatten, Rest;
      FlattenNone<byte>();
      ghost var seq0 := rtpSeqNumber;
      ghost var group := NalPackets(nal, isLastNal, seq0, timestamp);
      var offset := 1;
      var remaining := |nal| - 1;
      var fragIndex := 0;
      packets := [];
      RestAll(nal, isLastNal, seq0, timestamp);
      while remaining > 0
        invariant 1 <= offset && 0 <= remaining && offset + remaining == |nal| && fragIndex == |packets|
        invariant HasSent(old(sent), seq0, old(bytesSent), packets)
        invariant group == packets + Rest(nal, offset, fragIndex == 0, isLastNal, rtpSeqNumber, timestamp)
      {
        var fragSize := if remaining > MAX_FRAG_PAYLOAD then MAX_FRAG_PAYLOAD else remaining;
        var isLastFrag := fragSize == remaining;
        var marker := if isLastNal && isLastFrag then 1 else 0;
        var packet := PackRtpHeader(rtpSeqNumber, timestamp, marker)
                      + [FuIndicator(nal[0]), FuHeader(nal[0], fragIndex == 0, isLastFrag)]
                      + nal[offset..offset + fragSize];
        RestStep(nal, offset, fragIndex == 0, isLastNal, rtpSeqNumber, timestamp);
        var ok := SendTo(packet, old(sent), seq0, old(bytesSent), packets);
        if !ok {
          return -1, packets;
        }
        packets := packets + [packet];
        offset := offset + fragSize;
        remaining := remaining - fragSize;
        fragIndex := fragIndex + 1;
      }
      count := fragIndex;
      RestNone(nal, fragIndex == 0, isLastNal, rtpSeqNumber, timestamp);
    }

    // One iteration of the NAL loop: -1 when the network refuses a packet.
    method SendNal(nal: Nal, isLastNal: bool, timestamp: nat) returns (count: int, ghost packets: seq<Packet>)
      requires Valid() && timestamp < 0x1_0000_0000
      modifies this
      ensures HasSent(old(sent), old(rtpSeqNumber), old(bytesSent), packets)
      ensures var group := NalPackets(nal, isLastNal, old(rtpSeqNumber), timestamp);
              && packets <= group
              && if count < 0 then count == -1 && |packets| < |group| else count == |group| == |packets|
    {
      packets := [];
      if |nal| == 0 {
        return 0, packets;
      }
      if |nal| <= MAX_PAYLOAD_SIZE {
        var marker := if isLastNal then 1 else 0;
        var packet := PackRtpHeader(rtpSeqNumber, timestamp, marker) + nal;
        var ok := SendTo(packet, old(sent), old(rtpSeqNumber), old(bytesSent), packets);
        if !ok {
          return -1, packets;
        }
        return 1, [packet];
      }
      count, packets := SendFragments(nal, isLastNal, timestamp);
    }

    // downlink_send_nals: all packets of the list in order, or a prefix of them and -1 when
    // the network refuses one.
    method SendNals(nals: seq<Nal>, timestamp: nat) returns (totalPackets: int, ghost packets: seq<Packet>)
      requires Valid() && timestamp < 0x1_0000_0000
      modifies this
      ensures Valid() && HasSent(old(sent), old(rtpSeqNumber), old(bytesSent), packets)
      ensures nals == [] ==> totalPackets == -1 && packets == []
      ensures nals != [] ==>
                var all := Flatten(Groups(nals, |nals|, old(rtpSeqNumber), timestamp));
                && packets <= all
                && if totalPackets < 0 then totalPackets == -1 && |packets| < |all|
                   else totalPackets == |all| == |packets|
    {
      hide Flatten, Groups, NalPackets;
      packets := [];
      FlattenNone<byte>();
      GroupsNone(nals, rtpSeqNumber, timestamp);
      if |nals| == 0 {
        return -1, packets;
      }
      totalPackets := 0;
      ghost var seq0 := rtpSeqNumber;
      for i := 0 to |nals|
        invariant Valid() && HasSent(old(sent), seq0, old(bytesSent), packets)
        invariant packets == Flatten(Groups(nals, i, seq0, timestamp)) && totalPackets == |packets|
      {
        ghost var group := NalPackets(nals[i], i == |nals| - 1, rtpSeqNumber, timestamp);
        var count, added := SendNal(nals[i], i == |nals| - 1, timestamp);
        FlattenJoin(packets, added);
        GroupsStep(nals, i, seq0, timestamp);
        GroupsPrefix(nals, i, |nals|, seq0, timestamp);
        packets := packets + added;
        if count < 0 {
          return -1, packets;
        }
        totalPackets := totalPackets + count;
      }
    }
  }

  lemma GroupsNone(nals: seq<Nal>, seqNo: nat, timestamp: nat)
    requires seqNo < UINT16 && timestamp < 0x1_0000_0000
    ensures Flatten(Groups(nals, 0, seqNo, timestamp)) == []
  {}

  lemma GroupsStep(nals: seq<Nal>, i: nat, seqNo: nat, timestamp: nat)
    requires i < |nals| && seqNo < UINT16 && timestamp < 0x1_0000_0000
    ensures var before := Flatten(Groups(nals, i, seqNo, timestamp));
            Flatten(Groups(nals, i + 1, seqNo, timestamp)) ==
            before + NalPackets(nals[i], i == |nals| - 1, (seqNo + |before|) % UINT16, timestamp)
  {
    var before := Groups(nals, i, seqNo, timestamp);
    FlattenAppend(before, NalPackets(nals[i], i == |nals| - 1, (seqNo + |Flatten(before)|) % UINT16, timestamp));
  }
}
