// What the two programs promise together.
module VideoLink {
  import opened Rtp
  import opened Downlink
  import opened Receiver

  // A short NAL that is not in Annex B form and has type 28 looks like an FU-A fragment.
  predicate LooksLikeFragment(nal: Nal) {
    2 <= |nal| <= MAX_PAYLOAD_SIZE && !IsAnnexB(nal) && NalType(nal) == 28
  }

  // What the decoder is given for one NAL.
  function Expected(nal: Nal): seq<seq<byte>> {
    if |nal| == 0 then []
    else if |nal| > MAX_PAYLOAD_SIZE then [START_CODE + nal]
    else if IsAnnexB(nal) then [nal]
    else if 1 <= NalType(nal) <= 23 then [START_CODE + nal]
    else []
  }

  // ---------- The shape of the packets ----------

  // Version 2, 8 bytes of header, at most 1472 bytes in all.
  predicate WellFormedPacket(p: Packet, seqNo: nat, timestamp: nat, marker: nat) {
    && RTP_HEADER_SIZE < |p| <= RTP_HEADER_SIZE + MAX_PAYLOAD_SIZE
    && HeaderOf(p) == Header(2, 0, 0, 0, marker, 96, seqNo, timestamp)
    && PayloadOffset(p) == RTP_HEADER_SIZE
  }

  // The k-th of a run of fragments.
  predicate IsFragment(p: Packet, header: byte, first: bool, last: bool) {
    && |p| > RTP_HEADER_SIZE + 2
    && p[8] == FuIndicator(header) && p[9] == FuHeader(header, first, last)
    && SBit(p[9]) == first && EBit(p[9]) == last
    && OriginalNalHeader(p[8], p[9]) == header
  }

  function Chunk(p: Packet): seq<byte> {
    if |p| < RTP_HEADER_SIZE + 2 then [] else p[RTP_HEADER_SIZE + 2..]
  }

  function FragmentBytes(packets: seq<Packet>): seq<byte> {
    if packets == [] then [] else Chunk(packets[0]) + FragmentBytes(packets[1..])
  }

  lemma FuBytes(header: byte, first: bool, last: bool)
    ensures SBit(FuHeader(header, first, last)) == first && EBit(FuHeader(header, first, last)) == last
    ensures OriginalNalHeader(FuIndicator(header), FuHeader(header, first, last)) == header
    ensures FuIndicator(header) % 32 == 28
  {}

  // The packet that carries one chunk.
  function FragmentPacket(header: byte, chunk: seq<byte>, first: bool, last: bool,
                          seqNo: nat, timestamp: nat, marker: nat): Packet
    requires seqNo < UINT16 && timestamp < 0x1_0000_0000 && marker <= 1
  {
    PackRtpHeader(seqNo, timestamp, marker) + [FuIndicator(header), FuHeader(header, first, last)] + chunk
  }

  lemma FragmentPacketShape(header: byte, chunk: seq<byte>, first: bool, last: bool,
                            seqNo: nat, timestamp: nat, marker: nat)
    requires seqNo < UINT16 && timestamp < 0x1_0000_0000 && marker <= 1 && 0 < |chunk| <= MAX_FRAG_PAYLOAD
    ensures var p := FragmentPacket(header, chunk, first, last, seqNo, timestamp, marker);
            && WellFormedPacket(p, seqNo, timestamp, marker) && IsFragment(p, header, first, last)
            && Chunk(p) == chunk
  {
    hide PackRtpHeader, HeaderOf, PayloadOffset, FuIndicator, FuHeader;
    var payload := [FuIndicator(header), FuHeader(header, first, last)] + chunk;
    HeaderRoundTrip(seqNo, timestamp, marker, payload);
    assert FragmentPacket(header, chunk, first, last, seqNo, timestamp, marker) ==
           PackRtpHeader(seqNo, timestamp, marker) + payload;
    FuBytes(header, first, last);
  }

  lemma FragmentsUnfold(header: byte, rest: seq<byte>, first: bool, isLastNal: bool, seqNo: nat, timestamp: nat)
    requires |rest| > 0 && seqNo < UINT16 && timestamp < 0x1_0000_0000
    ensures var ps := Fragments(header, rest, first, isLastNal, seqNo, timestamp);
            if |rest| <= MAX_FRAG_PAYLOAD then
              ps == [FragmentPacket(header, rest, first, true, seqNo, timestamp, if isLastNal then 1 else 0)]
            else
              ps == [FragmentPacket(header, rest[..MAX_FRAG_PAYLOAD], first, false, seqNo, timestamp, 0)]
                    + Fragments(header, rest[MAX_FRAG_PAYLOAD..], false, isLastNal, (seqNo + 1) % UINT16, timestamp)
  {
    hide PackRtpHeader, FuIndicator, FuHeader;
    if |rest| <= MAX_FRAG_PAYLOAD {
      assert rest[..|rest|] == rest;
    }
  }

  // Fragment k of a run: numbered consecutively, S on the first only, E on the last only, the
  // marker on the last one of the last NAL.
  predicate FragmentAt(ps: seq<Packet>, k: nat, header: byte, first: bool, isLastNal: bool, seqNo: nat, timestamp: nat)
    requires k < |ps|
  {
    && WellFormedPacket(ps[k], (seqNo + k) % UINT16, timestamp, if isLastNal && k == |ps| - 1 then 1 else 0)
    && IsFragment(ps[k], header, first && k == 0, k == |ps| - 1)
  }

  lemma {:induction false} FragmentsShape(header: byte, rest: seq<byte>, first: bool, isLastNal: bool,
                                          seqNo: nat, timestamp: nat, ps: seq<Packet>)
    requires |rest| > 0 && seqNo < UINT16 && timestamp < 0x1_0000_0000
    requires ps == Fragments(header, rest, first, isLastNal, seqNo, timestamp)
    ensures forall k | 0 <= k < |ps| :: FragmentAt(ps, k, header, first, isLastNal, seqNo, timestamp)
    decreases |rest|
  {
    hide WellFormedPacket, IsFragment, Fragments, FragmentPacket;
    FragmentsUnfold(header, rest, first, isLastNal, seqNo, timestamp);
    if |rest| <= MAX_FRAG_PAYLOAD {
      FragmentPacketShape(header, rest, first, true, seqNo, timestamp, if isLastNal then 1 else 0);
    } else {
      FragmentPacketShape(header, rest[..MAX_FRAG_PAYLOAD], first, false, seqNo, timestamp, 0);
      var next := (seqNo + 1) % UINT16;
      var later := Fragments(header, rest[MAX_FRAG_PAYLOAD..], false, isLastNal, next, timestamp);
      FragmentsShape(header, rest[MAX_FRAG_PAYLOAD..], false, isLastNal, next, timestamp, later);
      FragmentsNonEmpty(header, rest[MAX_FRAG_PAYLOAD..], false, isLastNal, next, timestamp);
      forall k | 0 <= k < |ps|
        ensures FragmentAt(ps, k, header, first, isLastNal, seqNo, timestamp)
      {
        if k > 0 {
          assert ps[k] == later[k - 1];
          assert FragmentAt(later, k - 1, header, false, isLastNal, next, timestamp);
          assert (next + (k - 1)) % UINT16 == (seqNo + k) % UINT16;
        }
      }
    }
  }

  lemma FragmentsNonEmpty(header: byte, rest: seq<byte>, first: bool, isLastNal: bool, seqNo: nat, timestamp: nat)
    requires |rest| > 0 && seqNo < UINT16 && timestamp < 0x1_0000_0000
    ensures Fragments(header, rest, first, isLastNal, seqNo, timestamp) != []
  {
    hide PackRtpHeader, FuIndicator, FuHeader;
  }

  // As few fragments as possible, which together carry every byte of the NAL but its first.
  lemma {:induction false} FragmentsCarry(header: byte, rest: seq<byte>, first: bool, isLastNal: bool,
                                          seqNo: nat, timestamp: nat)
    requires |rest| > 0 && seqNo < UINT16 && timestamp < 0x1_0000_0000
    ensures var ps := Fragments(header, rest, first, isLastNal, seqNo, timestamp);
            && |ps| == (|rest| + MAX_FRAG_PAYLOAD - 1) / MAX_FRAG_PAYLOAD
            && FragmentBytes(ps) == rest
    decreases |rest|
  {
    hide Fragments, FragmentPacket, WellFormedPacket, IsFragment, Chunk;
    FragmentsUnfold(header, rest, first, isLastNal, seqNo, timestamp);
    var ps := Fragments(header, rest, first, isLastNal, seqNo, timestamp);
    if |rest| <= MAX_FRAG_PAYLOAD {
      FragmentPacketShape(header, rest, first, true, seqNo, timestamp, if isLastNal then 1 else 0);
      assert ps[1..] == [];
    } else {
      var head, tail := rest[..MAX_FRAG_PAYLOAD], rest[MAX_FRAG_PAYLOAD..];
      FragmentPacketShape(header, head, first, false, seqNo, timestamp, 0);
      FragmentsCarry(header, tail, false, isLastNal, (seqNo + 1) % UINT16, timestamp);
      assert ps[1..] == Fragments(header, tail, false, isLastNal, (seqNo + 1) % UINT16, timestamp);
      assert head + tail == rest;
    }
  }

  // ---------- Delivery ----------

  lemma FeedFragmentPacket(st: Assembly, p: Packet, header: byte, first: bool, last: bool,
                           seqNo: nat, timestamp: nat, marker: nat)
    requires WellFormedPacket(p, seqNo, timestamp, marker) && IsFragment(p, header, first, last)
    ensures var buf := (if first then START_CODE + [header] else st.buf) + Chunk(p);
            Feed(st, p) == if last then Assembly([], st.delivered + [buf]) else st.(buf := buf)
  {
    hide HeaderOf, PayloadOffset, SBit, EBit, OriginalNalHeader;
    var payload := p[RTP_HEADER_SIZE..];
    assert payload[0] % 32 == 28;
    assert payload[2..] == Chunk(p);
  }

  lemma FeedOne(st: Assembly, datagram: Packet)
    ensures FeedAll(st, [datagram]) == Feed(st, datagram)
  {
    hide Feed;
    var none: seq<Packet> := [];
    assert [datagram][..0] == none;
  }

  // A whole run of fragments delivers its bytes and leaves the buffer empty, whatever
  // the state was if the run begins with S.
  lemma {:induction false} FeedFragments(st: Assembly, header: byte, rest: seq<byte>, first: bool, isLastNal: bool,
                                         seqNo: nat, timestamp: nat)
    requires |rest| > 0 && seqNo < UINT16 && timestamp < 0x1_0000_0000
    ensures FeedAll(st, Fragments(header, rest, first, isLastNal, seqNo, timestamp)) ==
            Assembly([], st.delivered + [(if first then START_CODE + [header] else st.buf) + rest])
    decreases |rest|
  {
    hide Fragments, FragmentPacket, WellFormedPacket, IsFragment, Chunk, Feed;
    FragmentsUnfold(header, rest, first, isLastNal, seqNo, timestamp);
    var ps := Fragments(header, rest, first, isLastNal, seqNo, timestamp);
    FeedAllJoin(st, ps[..1], ps[1..]);
    assert ps[..1] + ps[1..] == ps;
    FeedOne(st, ps[0]);
    assert ps[..1] == [ps[0]];
    if |rest| <= MAX_FRAG_PAYLOAD {
      var marker := if isLastNal then 1 else 0;
      FragmentPacketShape(header, rest, first, true, seqNo, timestamp, marker);
      FeedFragmentPacket(st, ps[0], header, first, true, seqNo, timestamp, marker);
      assert ps[1..] == [];
    } else {
      var head, tail := rest[..MAX_FRAG_PAYLOAD], rest[MAX_FRAG_PAYLOAD..];
      FragmentPacketShape(header, head, first, false, seqNo, timestamp, 0);
      FeedFragmentPacket(st, ps[0], header, first, false, seqNo, timestamp, 0);
      var st1 := Feed(st, ps[0]);
      FeedFragments(st1, header, tail, false, isLastNal, (seqNo + 1) % UINT16, timestamp);
      assert ps[1..] == Fragments(header, tail, false, isLastNal, (seqNo + 1) % UINT16, timestamp);
      assert st1.buf + tail == (if first then START_CODE + [header] else st.buf) + rest by {
        assert head + tail == rest;
      }
    }
  }

  // From any state, all packets of a NAL deliver it as expected, unless it is a short NAL
  // that looks like a fragment.
  lemma FeedNal(st: Assembly, nal: Nal, isLastNal: bool, seqNo: nat, timestamp: nat)
    requires seqNo < UINT16 && timestamp < 0x1_0000_0000 && !LooksLikeFragment(nal)
    ensures FeedAll(st, NalPackets(nal, isLastNal, seqNo, timestamp)) ==
            Assembly(if |nal| > MAX_PAYLOAD_SIZE then [] else st.buf, st.delivered + Expected(nal))
  {
    hide Fragments, HeaderOf, PayloadOffset, PackRtpHeader;
    if |nal| == 0 {
    } else if |nal| <= MAX_PAYLOAD_SIZE {
      var marker := if isLastNal then 1 else 0;
      HeaderRoundTrip(seqNo, timestamp, marker, nal);
      var p := PackRtpHeader(seqNo, timestamp, marker) + nal;
      FeedOne(st, p);
    } else {
      FeedFragments(st, nal[0], nal[1..], true, isLastNal, seqNo, timestamp);
      assert START_CODE + [nal[0]] + nal[1..] == START_CODE + nal;
    }
  }

  // What is delivered while each part of a reception is fed.
  function Outputs(st: Assembly, parts: seq<seq<Packet>>): (out: seq<seq<seq<byte>>>)
    ensures |out| == |parts|
  {
    if parts == [] then [] else
      var last := |parts| - 1;
      var before := FeedAll(st, Flatten(parts[..last]));
      Delivered(before, parts[last]);
      Outputs(st, parts[..last]) + [FeedAll(before, parts[last]).delivered[|before.delivered|..]]
  }

  // The log of deliveries only grows.
  lemma {:induction false} Delivered(st: Assembly, packets: seq<Packet>)
    ensures st.delivered <= FeedAll(st, packets).delivered
  {
    hide PayloadOffset, HeaderOf, IsAnnexB, NalType, SBit, EBit, OriginalNalHeader, Received;
    if packets != [] {
      Delivered(st, packets[..|packets| - 1]);
    }
  }

  // The outputs of the parts, in order, are everything that was delivered.
  lemma {:induction false} OutputsAreDeliveries(st: Assembly, parts: seq<seq<Packet>>)
    ensures FeedAll(st, Flatten(parts)).delivered == st.delivered + Flatten(Outputs(st, parts))
  {
    hide Feed;
    if parts != [] {
      var last := |parts| - 1;
      var before := FeedAll(st, Flatten(parts[..last]));
      OutputsAreDeliveries(st, parts[..last]);
      FeedAllJoin(st, Flatten(parts[..last]), parts[last]);
      Delivered(before, parts[last]);
      FlattenAppend(Outputs(st, parts[..last]), FeedAll(before, parts[last]).delivered[|before.delivered|..]);
    }
  }

  lemma {:induction false} OutputAt(st: Assembly, parts: seq<seq<Packet>>, i: nat)
    requires i < |parts|
    ensures var before := FeedAll(st, Flatten(parts[..i]));
            && before.delivered <= FeedAll(before, parts[i]).delivered
            && Outputs(st, parts)[i] == FeedAll(before, parts[i]).delivered[|before.delivered|..]
  {
    hide FeedAll;
    var last := |parts| - 1;
    if i == last {
      Delivered(FeedAll(st, Flatten(parts[..last])), parts[last]);
    } else {
      OutputAt(st, parts[..last], i);
      assert parts[..last][..i] == parts[..i];
    }
  }

  // Resynchronisation: from any receiver state, and whatever arrived in place of the other
  // NALs' packets, a NAL all of whose packets arrived is delivered intact and in its turn, as
  // long as the buffer holds what arrived.
  lemma Resynchronises(st: Assembly, nals: seq<Nal>, seqNo: nat, timestamp: nat, parts: seq<seq<Packet>>, i: nat)
    requires seqNo < UINT16 && timestamp < 0x1_0000_0000
    requires |parts| == |nals| && i < |nals| && !LooksLikeFragment(nals[i])
    requires parts[i] == Groups(nals, |nals|, seqNo, timestamp)[i]
    requires FitsBuffer(st, Flatten(parts))
    ensures Outputs(st, parts)[i] == Expected(nals[i])
    ensures FeedAll(st, Flatten(parts)).delivered == st.delivered + Flatten(Outputs(st, parts))
  {
    hide FeedAll, Flatten, Groups, NalPackets, Expected, Outputs, LooksLikeFragment;
    OutputsAreDeliveries(st, parts);
    OutputAt(st, parts, i);
    GroupAt(nals, |nals|, i, seqNo, timestamp);
    var number := (seqNo + |Flatten(Groups(nals, i, seqNo, timestamp))|) % UINT16;
    FeedNal(FeedAll(st, Flatten(parts[..i])), nals[i], i == |nals| - 1, number, timestamp);
  }

  lemma {:induction false} GroupAt(nals: seq<Nal>, n: nat, i: nat, seqNo: nat, timestamp: nat)
    requires i < n <= |nals| && seqNo < UINT16 && timestamp < 0x1_0000_0000
    ensures Groups(nals, n, seqNo, timestamp)[i] ==
            NalPackets(nals[i], i == |nals| - 1,
                       (seqNo + |Flatten(Groups(nals, i, seqNo, timestamp))|) % UINT16, timestamp)
  {
    hide NalPackets, Groups, Flatten;
    GroupsLast(nals, n, seqNo, timestamp);
    if i < n - 1 {
      GroupAt(nals, n - 1, i, seqNo, timestamp);
    }
  }

  // Round trip: without loss, from any state, every NAL of the list is delivered in order.
  lemma RoundTrip(st: Assembly, nals: seq<Nal>, seqNo: nat, timestamp: nat)
    requires seqNo < UINT16 && timestamp < 0x1_0000_0000
    requires forall i | 0 <= i < |nals| :: !LooksLikeFragment(nals[i])
    requires forall i | 0 <= i < |nals| :: |nals[i]| > MAX_PAYLOAD_SIZE ==> |nals[i]| + 4 <= H264_BUF_SIZE
    ensures FitsBuffer(st, Flatten(Groups(nals, |nals|, seqNo, timestamp)))
    ensures FeedAll(st, Flatten(Groups(nals, |nals|, seqNo, timestamp))).delivered ==
            st.delivered + Flatten(seq(|nals|, i requires 0 <= i < |nals| => Expected(nals[i])))
  {
    hide Groups, FeedAll, Flatten, Outputs, LooksLikeFragment, Expected;
    var parts := Groups(nals, |nals|, seqNo, timestamp);
    BufferSuffices(st, nals, |nals|, seqNo, timestamp);
    forall i | 0 <= i < |nals|
      ensures Outputs(st, parts)[i] == Expected(nals[i])
    {
      Resynchronises(st, nals, seqNo, timestamp, parts, i);
    }
    OutputsAreDeliveries(st, parts);
    assert Outputs(st, parts) == seq(|nals|, i requires 0 <= i < |nals| => Expected(nals[i]));
  }

  // What was in the buffer happens to be the part of the NAL that is taken for a header.
  predicate RestoredByChance(st: Assembly, nal: Nal) {
    && 2 <= |nal| && NalType(nal) == 28 && EBit(nal[1]) && !SBit(nal[1])
    && (st.buf == nal[..2] || st.buf == START_CODE + nal[..2])
  }

  // In any state of the receiver, a short NAL is delivered (with or without a start code put in
  // front) exactly when it is in Annex B form or has a single-NAL type, but for that chance.
  lemma ShortNalDelivered(st: Assembly, nal: Nal, isLastNal: bool, seqNo: nat, timestamp: nat)
    requires 1 <= |nal| <= MAX_PAYLOAD_SIZE && seqNo < UINT16 && timestamp < 0x1_0000_0000
    ensures var out := FeedAll(st, NalPackets(nal, isLastNal, seqNo, timestamp)).delivered;
            (out == st.delivered + [nal] || out == st.delivered + [START_CODE + nal])
            <==> (IsAnnexB(nal) || 1 <= NalType(nal) <= 23 || RestoredByChance(st, nal))
  {
    hide HeaderOf, PayloadOffset, PackRtpHeader;
    var marker := if isLastNal then 1 else 0;
    HeaderRoundTrip(seqNo, timestamp, marker, nal);
    FeedOne(st, PackRtpHeader(seqNo, timestamp, marker) + nal);
    if !IsAnnexB(nal) && NalType(nal) == 28 && |nal| >= 2 {
      ShortFragmentDelivers(st, nal);
    } else {
      var out := FeedPayload(st, nal).delivered;
      assert out == st.delivered ==> |out| != |st.delivered + [nal]|;
    }
  }

  lemma ShortFragmentDelivers(st: Assembly, nal: Nal)
    requires |nal| >= 2 && NalType(nal) == 28
    ensures var out := FeedFragment(st, nal).delivered;
            (out == st.delivered + [nal] || out == st.delivered + [START_CODE + nal]) <==> RestoredByChance(st, nal)
  {
    var out := FeedFragment(st, nal).delivered;
    if !EBit(nal[1]) {
      assert |out| != |st.delivered + [nal]|;
    } else {
      var unit := out[|st.delivered|];
      assert (st.delivered + [nal])[|st.delivered|] == nal;
      assert (st.delivered + [START_CODE + nal])[|st.delivered|] == START_CODE + nal;
      assert nal == nal[..2] + nal[2..];
      if SBit(nal[1]) {
        assert |unit| == |nal| + 3;
      } else {
        assert unit == st.buf + nal[2..];
        if unit == nal { assert st.buf == unit[..2]; }
        if unit == START_CODE + nal { assert st.buf == unit[..6]; }
        if st.buf == START_CODE + nal[..2] { assert unit == START_CODE + nal; }
      }
    }
  }

  // A short raw NAL of type 28 is not delivered as sent.
  lemma TypeTwentyEightIsLost()
    ensures var nal: Nal := [28, 0xc1, 7];
            FeedAll(Assembly([], []), NalPackets(nal, true, 0, 0)).delivered == [[0, 0, 0, 1, 1, 7]]
  {
    hide HeaderOf, PayloadOffset, PackRtpHeader;
    var nal: Nal := [28, 0xc1, 7];
    HeaderRoundTrip(0, 0, 1, nal);
    FeedOne(Assembly([], []), PackRtpHeader(0, 0, 1) + nal);
    assert nal[2..] == [7];
    assert START_CODE + [1] + [7] == [0, 0, 0, 1, 1, 7];
  }

  // ---------- Numbering ----------

  lemma NalPacketsShape(nal: Nal, isLastNal: bool, seqNo: nat, timestamp: nat, k: nat)
    requires seqNo < UINT16 && timestamp < 0x1_0000_0000
    requires k < |NalPackets(nal, isLastNal, seqNo, timestamp)|
    ensures var ps := NalPackets(nal, isLastNal, seqNo, timestamp);
            WellFormedPacket(ps[k], (seqNo + k) % UINT16, timestamp, if isLastNal && k == |ps| - 1 then 1 else 0)
  {
    hide Fragments, WellFormedPacket, IsFragment, PackRtpHeader;
    if |nal| <= MAX_PAYLOAD_SIZE {
      ShortPacketShape(nal, seqNo, timestamp, if isLastNal then 1 else 0);
    } else {
      var ps := NalPackets(nal, isLastNal, seqNo, timestamp);
      FragmentsShape(nal[0], nal[1..], true, isLastNal, seqNo, timestamp, ps);
      assert FragmentAt(ps, k, nal[0], true, isLastNal, seqNo, timestamp);
    }
  }

  lemma ShortPacketShape(nal: Nal, seqNo: nat, timestamp: nat, marker: nat)
    requires 1 <= |nal| <= MAX_PAYLOAD_SIZE && seqNo < UINT16 && timestamp < 0x1_0000_0000 && marker <= 1
    ensures WellFormedPacket(PackRtpHeader(seqNo, timestamp, marker) + nal, seqNo, timestamp, marker)
  {
    hide PackRtpHeader, HeaderOf, PayloadOffset;
    HeaderRoundTrip(seqNo, timestamp, marker, nal);
  }

  // Every packet of a call is at most 1472 bytes long, the sequence numbers are consecutive
  // modulo 2^16, and the marker is on the final packet only, if the last NAL is not empty.
  lemma {:induction false} PacketsNumbered(nals: seq<Nal>, n: nat, seqNo: nat, timestamp: nat, k: nat)
    requires n <= |nals| && seqNo < UINT16 && timestamp < 0x1_0000_0000
    requires k < |Flatten(Groups(nals, n, seqNo, timestamp))|
    ensures var all := Flatten(Groups(nals, n, seqNo, timestamp));
            WellFormedPacket(all[k], (seqNo + k) % UINT16, timestamp,
                             if n == |nals| && nals[n - 1] != [] && k == |all| - 1 then 1 else 0)
  {
    hide NalPackets, WellFormedPacket, Flatten, Groups;
    if n == 0 {
      GroupsNone(nals, seqNo, timestamp);
    } else {
      GroupsStep(nals, n - 1, seqNo, timestamp);
      var before := Flatten(Groups(nals, n - 1, seqNo, timestamp));
      var number := (seqNo + |before|) % UINT16;
      NalPacketsEmpty(nals[n - 1], n == |nals|, number, timestamp);
      if k < |before| {
        PacketsNumbered(nals, n - 1, seqNo, timestamp, k);
      } else {
        NalPacketsShape(nals[n - 1], n == |nals|, number, timestamp, k - |before|);
        assert (number + (k - |before|)) % UINT16 == (seqNo + k) % UINT16;
      }
    }
  }

  lemma NalPacketsEmpty(nal: Nal, isLastNal: bool, seqNo: nat, timestamp: nat)
    requires seqNo < UINT16 && timestamp < 0x1_0000_0000
    ensures NalPackets(nal, isLastNal, seqNo, timestamp) == [] <==> nal == []
  {
    hide Fragments;
    if |nal| > MAX_PAYLOAD_SIZE {
      FragmentsNonEmpty(nal[0], nal[1..], true, isLastNal, seqNo, timestamp);
    }
  }

  // A long NAL goes out in two fragments or more, S and E are never on the same one, and the
  // fragments carry the whole NAL after its first byte.
  lemma LongNalFragments(nal: Nal, isLastNal: bool, seqNo: nat, timestamp: nat)
    requires |nal| > MAX_PAYLOAD_SIZE && seqNo < UINT16 && timestamp < 0x1_0000_0000
    ensures var ps := NalPackets(nal, isLastNal, seqNo, timestamp);
            && |ps| >= 2
            && (forall k | 0 <= k < |ps| :: IsFragment(ps[k], nal[0], k == 0, k == |ps| - 1))
            && FragmentBytes(ps) == nal[1..]
  {
    hide Fragments, IsFragment;
    FragmentsCarry(nal[0], nal[1..], true, isLastNal, seqNo, timestamp);
    var ps := NalPackets(nal, isLastNal, seqNo, timestamp);
    FragmentsShape(nal[0], nal[1..], true, isLastNal, seqNo, timestamp, ps);
    forall k | 0 <= k < |ps|
      ensures IsFragment(ps[k], nal[0], k == 0, k == |ps| - 1)
    {
      assert FragmentAt(ps, k, nal[0], true, isLastNal, seqNo, timestamp);
    }
  }

  // ---------- The reassembly buffer ----------

  lemma {:induction false} FitsJoin(st: Assembly, a: seq<Packet>, b: seq<Packet>)
    ensures FitsBuffer(st, a + b) == (FitsBuffer(st, a) && FitsBuffer(FeedAll(st, a), b))
  {
    hide Reach, Feed;
    if b == [] {
      assert a + b == a;
    } else {
      var last := |b| - 1;
      FitsJoin(st, a, b[..last]);
      FeedAllJoin(st, a, b[..last]);
      assert (a + b)[..|a + b| - 1] == a + b[..last];
    }
  }

  lemma FitsOne(st: Assembly, p: Packet)
    ensures FitsBuffer(st, [p]) == (Reach(st, p) <= H264_BUF_SIZE)
  {
    hide Reach, Feed;
    var none: seq<Packet> := [];
    assert [p][..0] == none;
  }

  lemma ReachOfFragment(st: Assembly, p: Packet, header: byte, first: bool, last: bool,
                        seqNo: nat, timestamp: nat, marker: nat)
    requires WellFormedPacket(p, seqNo, timestamp, marker) && IsFragment(p, header, first, last)
    ensures Reach(st, p) == (if first then 5 else |st.buf|) + |Chunk(p)|
  {
    hide HeaderOf, PayloadOffset, SBit, EBit, OriginalNalHeader;
    var payload := p[RTP_HEADER_SIZE..];
    assert payload[0] % 32 == 28;
  }

  lemma {:induction false} FragmentsFit(st: Assembly, header: byte, rest: seq<byte>, first: bool, isLastNal: bool,
                                        seqNo: nat, timestamp: nat)
    requires |rest| > 0 && seqNo < UINT16 && timestamp < 0x1_0000_0000
    ensures FitsBuffer(st, Fragments(header, rest, first, isLastNal, seqNo, timestamp)) <==>
            (if first then 5 else |st.buf|) + |rest| <= H264_BUF_SIZE
    decreases |rest|
  {
    hide Fragments, FragmentPacket, WellFormedPacket, IsFragment, Chunk, Feed, Reach;
    FragmentsUnfold(header, rest, first, isLastNal, seqNo, timestamp);
    var ps := Fragments(header, rest, first, isLastNal, seqNo, timestamp);
    FitsJoin(st, ps[..1], ps[1..]);
    assert ps[..1] + ps[1..] == ps && ps[..1] == [ps[0]];
    FitsOne(st, ps[0]);
    FeedOne(st, ps[0]);
    if |rest| <= MAX_FRAG_PAYLOAD {
      var marker := if isLastNal then 1 else 0;
      FragmentPacketShape(header, rest, first, true, seqNo, timestamp, marker);
      ReachOfFragment(st, ps[0], header, first, true, seqNo, timestamp, marker);
      assert ps[1..] == [];
    } else {
      var head, tail := rest[..MAX_FRAG_PAYLOAD], rest[MAX_FRAG_PAYLOAD..];
      FragmentPacketShape(header, head, first, false, seqNo, timestamp, 0);
      ReachOfFragment(st, ps[0], header, first, false, seqNo, timestamp, 0);
      FeedFragmentPacket(st, ps[0], header, first, false, seqNo, timestamp, 0);
      FragmentsFit(Feed(st, ps[0]), header, tail, false, isLastNal, (seqNo + 1) % UINT16, timestamp);
      assert ps[1..] == Fragments(header, tail, false, isLastNal, (seqNo + 1) % UINT16, timestamp);
    }
  }

  lemma NalFits(st: Assembly, nal: Nal, isLastNal: bool, seqNo: nat, timestamp: nat)
    requires seqNo < UINT16 && timestamp < 0x1_0000_0000 && !LooksLikeFragment(nal)
    ensures FitsBuffer(st, NalPackets(nal, isLastNal, seqNo, timestamp)) <==>
            (|nal| > MAX_PAYLOAD_SIZE ==> |nal| + 4 <= H264_BUF_SIZE)
  {
    hide Fragments, HeaderOf, PayloadOffset, PackRtpHeader;
    if |nal| == 0 {
    } else if |nal| <= MAX_PAYLOAD_SIZE {
      var marker := if isLastNal then 1 else 0;
      HeaderRoundTrip(seqNo, timestamp, marker, nal);
      FitsOne(st, PackRtpHeader(seqNo, timestamp, marker) + nal);
    } else {
      FragmentsFit(st, nal[0], nal[1..], true, isLastNal, seqNo, timestamp);
    }
  }

  // Without loss, no write goes past h264_buf exactly when no fragmented NAL, with its start
  // code, is larger than the buffer.
  lemma {:induction false} BufferSuffices(st: Assembly, nals: seq<Nal>, n: nat, seqNo: nat, timestamp: nat)
    requires n <= |nals| && seqNo < UINT16 && timestamp < 0x1_0000_0000
    requires forall i | 0 <= i < n :: !LooksLikeFragment(nals[i])
    ensures FitsBuffer(st, Flatten(Groups(nals, n, seqNo, timestamp))) <==>
            forall i | 0 <= i < n :: |nals[i]| > MAX_PAYLOAD_SIZE ==> |nals[i]| + 4 <= H264_BUF_SIZE
  {
    hide NalPackets, Reach, Feed, LooksLikeFragment, Groups, Flatten;
    if n == 0 {
      GroupsNone(nals, seqNo, timestamp);
    } else {
      var before := Flatten(Groups(nals, n - 1, seqNo, timestamp));
      GroupsStep(nals, n - 1, seqNo, timestamp);
      BufferSuffices(st, nals, n - 1, seqNo, timestamp);
      var number := (seqNo + |before|) % UINT16;
      FitsJoin(st, before, NalPackets(nals[n - 1], n == |nals|, number, timestamp));
      NalFits(FeedAll(st, before), nals[n - 1], n == |nals|, number, timestamp);
    }
  }
  // ---------- The buffer under loss ----------

  // What is left of a sequence of packets after any loss.
  predicate Lossy(received: seq<Packet>, sent: seq<Packet>) {
    if sent == [] then received == []
    else
      var last := |sent| - 1;
      || Lossy(received, sent[..last])
      || (received != [] && received[|received| - 1] == sent[last]
          && Lossy(received[..|received| - 1], sent[..last]))
  }

  function Max(a: nat, b: nat): nat {
    if a < b then b else a
  }

  // The payload of a fragment, or nothing.
  function FragmentOf(p: Packet): (payload: seq<byte>)
    ensures payload == [] || |payload| >= 2
  {
    var bytes := Received(p);
    var off := PayloadOffset(bytes);
    if off < 0 || HeaderOf(bytes).version != 2 || off == |bytes| then []
    else
      var payload := bytes[off..];
      if IsAnnexB(payload) || NalType(payload) != 28 || |payload| < 2 then [] else payload
  }

  // How far into a buffer that is filled up to n one datagram writes, and how far it is filled
  // afterwards.
  function ReachFrom(n: nat, p: Packet): nat {
    var payload := FragmentOf(p);
    if payload == [] then 0 else (if SBit(payload[1]) then 5 else n) + |payload| - 2
  }

  function FillAfter(n: nat, p: Packet): nat {
    var payload := FragmentOf(p);
    if payload == [] then n else if EBit(payload[1]) then 0 else ReachFrom(n, p)
  }

  lemma FillIsLength(st: Assembly, p: Packet)
    ensures Reach(st, p) == ReachFrom(|st.buf|, p)
    ensures |Feed(st, p).buf| == FillAfter(|st.buf|, p)
  {
    hide HeaderOf, PayloadOffset, IsAnnexB, NalType, SBit, EBit, OriginalNalHeader;
  }

  lemma FillKeepsOrder(m: nat, n: nat, p: Packet)
    requires m <= n
    ensures ReachFrom(m, p) <= ReachFrom(n, p) && FillAfter(m, p) <= FillAfter(n, p)
  {
    hide FragmentOf, SBit, EBit;
  }

  // The most that can be in the buffer, whatever is lost, and the furthest write.
  function MaxFill(n: nat, sent: seq<Packet>): nat {
    if sent == [] then n
    else
      var m := MaxFill(n, sent[..|sent| - 1]);
      Max(m, FillAfter(m, sent[|sent| - 1]))
  }

  function MaxReach(n: nat, sent: seq<Packet>): nat {
    if sent == [] then 0
    else
      var last := |sent| - 1;
      Max(MaxReach(n, sent[..last]), ReachFrom(MaxFill(n, sent[..last]), sent[last]))
  }

  lemma {:induction false} LossFillsLess(st: Assembly, received: seq<Packet>, sent: seq<Packet>)
    requires Lossy(received, sent)
    ensures |FeedAll(st, received).buf| <= MaxFill(|st.buf|, sent)
    ensures MaxReach(|st.buf|, sent) <= H264_BUF_SIZE ==> FitsBuffer(st, received)
  {
    hide Feed, Reach, ReachFrom, FillAfter;
    if sent != [] {
      var last := |sent| - 1;
      if Lossy(received, sent[..last]) {
        LossFillsLess(st, received, sent[..last]);
      } else {
        var before := received[..|received| - 1];
        LossFillsLess(st, before, sent[..last]);
        FillIsLength(FeedAll(st, before), sent[last]);
        FillKeepsOrder(|FeedAll(st, before).buf|, MaxFill(|st.buf|, sent[..last]), sent[last]);
      }
    }
  }

  // Some loss fills the buffer that far.
  lemma {:induction false} WorstLoss(st: Assembly, sent: seq<Packet>) returns (received: seq<Packet>)
    ensures Lossy(received, sent) && |FeedAll(st, received).buf| == MaxFill(|st.buf|, sent)
  {
    hide Feed, FillAfter;
    if sent == [] {
      received := [];
    } else {
      var last := |sent| - 1;
      var before := WorstLoss(st, sent[..last]);
      received := before;
      FillIsLength(FeedAll(st, before), sent[last]);
      if |FeedAll(st, before).buf| < |Feed(FeedAll(st, before), sent[last]).buf| {
        received := before + [sent[last]];
        assert received[..|received| - 1] == before;
      }
    }
  }

  lemma {:induction false} OverrunByLoss(st: Assembly, sent: seq<Packet>) returns (received: seq<Packet>)
    requires MaxReach(|st.buf|, sent) > H264_BUF_SIZE
    ensures Lossy(received, sent) && !FitsBuffer(st, received)
  {
    hide Feed, Reach, FillAfter, ReachFrom;
    var last := |sent| - 1;
    if MaxReach(|st.buf|, sent[..last]) > H264_BUF_SIZE {
      received := OverrunByLoss(st, sent[..last]);
    } else {
      var before := WorstLoss(st, sent[..last]);
      received := before + [sent[last]];
      assert received[..|received| - 1] == before;
      FillIsLength(FeedAll(st, before), sent[last]);
    }
  }

  // No loss of any packets takes a write past the end of the buffer exactly when the furthest
  // write, which one pass over the packets finds, stays inside.
  lemma AnyLossFits(st: Assembly, sent: seq<Packet>)
    ensures (forall received | Lossy(received, sent) :: FitsBuffer(st, received))
      <==> MaxReach(|st.buf|, sent) <= H264_BUF_SIZE
  {
    hide MaxReach, Lossy, FitsBuffer;
    if MaxReach(|st.buf|, sent) <= H264_BUF_SIZE {
      forall received | Lossy(received, sent)
        ensures FitsBuffer(st, received)
      {
        LossFillsLess(st, received, sent);
      }
    } else {
      var received := OverrunByLoss(st, sent);
    }
  }

  // ---------- What the sender can tell ----------

  lemma {:induction false} MaxJoin(n: nat, a: seq<Packet>, b: seq<Packet>)
    ensures MaxFill(n, a + b) == MaxFill(MaxFill(n, a), b)
    ensures MaxReach(n, a + b) == Max(MaxReach(n, a), MaxReach(MaxFill(n, a), b))
  {
    hide FillAfter, ReachFrom;
    if b == [] {
      assert a + b == a;
    } else {
      var last := |b| - 1;
      MaxJoin(n, a, b[..last]);
      assert (a + b)[..|a + b| - 1] == a + b[..last];
    }
  }

  lemma MaxNone(n: nat)
    ensures MaxFill(n, []) == n && MaxReach(n, []) == 0
  {}

  lemma MaxOne(n: nat, p: Packet)
    ensures MaxFill(n, [p]) == Max(n, FillAfter(n, p)) && MaxReach(n, [p]) == ReachFrom(n, p)
  {
    hide FillAfter, ReachFrom;
    var none: seq<Packet> := [];
    assert [p][..0] == none;
  }

  lemma FragmentFill(n: nat, p: Packet, header: byte, first: bool, last: bool,
                     seqNo: nat, timestamp: nat, marker: nat)
    requires WellFormedPacket(p, seqNo, timestamp, marker) && IsFragment(p, header, first, last)
    ensures ReachFrom(n, p) == (if first then 5 else n) + |Chunk(p)|
    ensures FillAfter(n, p) == if last then 0 else ReachFrom(n, p)
  {
    hide HeaderOf, PayloadOffset, SBit, EBit, OriginalNalHeader;
    var payload := p[RTP_HEADER_SIZE..];
    assert payload[0] % 32 == 28;
  }

  // The bytes in the fragments before the last one.
  function BeforeLast(size: nat): (n: nat)
    requires size > 0
    ensures n < size
  {
    (size - 1) / MAX_FRAG_PAYLOAD * MAX_FRAG_PAYLOAD
  }

  lemma BeforeLastStep(size: nat)
    requires size > MAX_FRAG_PAYLOAD
    ensures BeforeLast(size) == MAX_FRAG_PAYLOAD + BeforeLast(size - MAX_FRAG_PAYLOAD)
  {}

  // A run of fragments without the first one.
  lemma {:induction false} LaterFragmentsFill(n: nat, header: byte, rest: seq<byte>, isLastNal: bool,
                                              seqNo: nat, timestamp: nat)
    requires |rest| > 0 && seqNo < UINT16 && timestamp < 0x1_0000_0000
    ensures var ps := Fragments(header, rest, false, isLastNal, seqNo, timestamp);
      MaxFill(n, ps) == n + BeforeLast(|rest|) && MaxReach(n, ps) == n + |rest|
    decreases |rest|
  {
    hide Fragments, FragmentPacket, WellFormedPacket, IsFragment, Chunk, FillAfter, ReachFrom;
    hide MaxFill, MaxReach, BeforeLast;
    var ps := Fragments(header, rest, false, isLastNal, seqNo, timestamp);
    FragmentsUnfold(header, rest, false, isLastNal, seqNo, timestamp);
    MaxOne(n, ps[0]);
    if |rest| <= MAX_FRAG_PAYLOAD {
      var marker := if isLastNal then 1 else 0;
      FragmentPacketShape(header, rest, false, true, seqNo, timestamp, marker);
      FragmentFill(n, ps[0], header, false, true, seqNo, timestamp, marker);
      assert BeforeLast(|rest|) == 0 by { OnlyOne(|rest|); }
    } else {
      var head, tail := rest[..MAX_FRAG_PAYLOAD], rest[MAX_FRAG_PAYLOAD..];
      FragmentPacketShape(header, head, false, false, seqNo, timestamp, 0);
      FragmentFill(n, ps[0], header, false, false, seqNo, timestamp, 0);
      LaterFragmentsFill(n + MAX_FRAG_PAYLOAD, header, tail, isLastNal, (seqNo + 1) % UINT16, timestamp);
      MaxJoin(n, [ps[0]], Fragments(header, tail, false, isLastNal, (seqNo + 1) % UINT16, timestamp));
      BeforeLastStep(|rest|);
    }
  }

  lemma OnlyOne(size: nat)
    requires 0 < size <= MAX_FRAG_PAYLOAD
    ensures BeforeLast(size) == 0
  {}

  // A start code, the first byte and a full fragment.
  const FIRST_FILL: nat := 5 + MAX_FRAG_PAYLOAD

  // What one NAL adds at worst: all fragments but the last one arrive, and the first one only if
  // it helps.
  function NalFill(n: nat, nal: Nal): nat {
    if |nal| <= MAX_PAYLOAD_SIZE then n
    else Max(n, FIRST_FILL) + BeforeLast(|nal| - 1 - MAX_FRAG_PAYLOAD)
  }

  function NalReach(n: nat, nal: Nal): nat {
    if |nal| <= MAX_PAYLOAD_SIZE then 0 else Max(n, FIRST_FILL) + |nal| - 1 - MAX_FRAG_PAYLOAD
  }

  lemma NalMax(n: nat, nal: Nal, isLastNal: bool, seqNo: nat, timestamp: nat)
    requires seqNo < UINT16 && timestamp < 0x1_0000_0000 && !LooksLikeFragment(nal)
    ensures var ps := NalPackets(nal, isLastNal, seqNo, timestamp);
      MaxFill(n, ps) == NalFill(n, nal) && MaxReach(n, ps) == NalReach(n, nal)
  {
    hide Fragments, HeaderOf, PayloadOffset, PackRtpHeader, FragmentPacket, WellFormedPacket, IsFragment, Chunk;
    hide BeforeLast, FillAfter, ReachFrom;
    if |nal| == 0 {
    } else if |nal| <= MAX_PAYLOAD_SIZE {
      var marker := if isLastNal then 1 else 0;
      var p := PackRtpHeader(seqNo, timestamp, marker) + nal;
      MaxOne(n, p);
      ShortAddsNothing(n, nal, seqNo, timestamp, marker);
    } else {
      var header, rest := nal[0], nal[1..];
      var head, tail := rest[..MAX_FRAG_PAYLOAD], rest[MAX_FRAG_PAYLOAD..];
      var ps := Fragments(header, rest, true, isLastNal, seqNo, timestamp);
      FragmentsUnfold(header, rest, true, isLastNal, seqNo, timestamp);
      FragmentPacketShape(header, head, true, false, seqNo, timestamp, 0);
      FragmentFill(n, ps[0], header, true, false, seqNo, timestamp, 0);
      MaxOne(n, ps[0]);
      LaterFragmentsFill(Max(n, FIRST_FILL), header, tail, isLastNal, (seqNo + 1) % UINT16, timestamp);
      MaxJoin(n, [ps[0]], Fragments(header, tail, false, isLastNal, (seqNo + 1) % UINT16, timestamp));
    }
  }

  lemma ShortAddsNothing(n: nat, nal: Nal, seqNo: nat, timestamp: nat, marker: nat)
    requires 1 <= |nal| <= MAX_PAYLOAD_SIZE && seqNo < UINT16 && timestamp < 0x1_0000_0000 && marker <= 1
    requires !LooksLikeFragment(nal)
    ensures var p := PackRtpHeader(seqNo, timestamp, marker) + nal;
      FillAfter(n, p) == n && ReachFrom(n, p) == 0
  {
    hide HeaderOf, PayloadOffset, PackRtpHeader;
    HeaderRoundTrip(seqNo, timestamp, marker, nal);
  }

  // The first k NALs of a call.
  function NalsFill(n: nat, nals: seq<Nal>, k: nat): nat
    requires k <= |nals|
  {
    if k == 0 then n else NalFill(NalsFill(n, nals, k - 1), nals[k - 1])
  }

  function NalsReach(n: nat, nals: seq<Nal>, k: nat): nat
    requires k <= |nals|
  {
    if k == 0 then 0 else Max(NalsReach(n, nals, k - 1), NalReach(NalsFill(n, nals, k - 1), nals[k - 1]))
  }

  lemma {:induction false} NalsMax(n: nat, nals: seq<Nal>, k: nat, seqNo: nat, timestamp: nat)
    requires k <= |nals| && seqNo < UINT16 && timestamp < 0x1_0000_0000
    requires forall i | 0 <= i < k :: !LooksLikeFragment(nals[i])
    ensures var sent := Flatten(Groups(nals, k, seqNo, timestamp));
      MaxFill(n, sent) == NalsFill(n, nals, k) && MaxReach(n, sent) == NalsReach(n, nals, k)
  {
    hide NalPackets, Groups, Flatten, LooksLikeFragment, NalFill, NalReach, MaxFill, MaxReach;
    if k == 0 {
      GroupsNone(nals, seqNo, timestamp);
      MaxNone(n);
    } else {
      var before := Flatten(Groups(nals, k - 1, seqNo, timestamp));
      GroupsStep(nals, k - 1, seqNo, timestamp);
      NalsMax(n, nals, k - 1, seqNo, timestamp);
      var number := (seqNo + |before|) % UINT16;
      MaxJoin(n, before, NalPackets(nals[k - 1], k == |nals|, number, timestamp));
      NalMax(NalsFill(n, nals, k - 1), nals[k - 1], k == |nals|, number, timestamp);
    }
  }

  // No loss of the packets of a call takes a write past the end of the buffer exactly when the sizes
  // of its NALs say so.
  lemma AnyLossOfNalsFits(st: Assembly, nals: seq<Nal>, seqNo: nat, timestamp: nat)
    requires seqNo < UINT16 && timestamp < 0x1_0000_0000
    requires forall i | 0 <= i < |nals| :: !LooksLikeFragment(nals[i])
    ensures (forall received | Lossy(received, Flatten(Groups(nals, |nals|, seqNo, timestamp))) ::
              FitsBuffer(st, received))
      <==> NalsReach(|st.buf|, nals, |nals|) <= H264_BUF_SIZE
  {
    hide Lossy, FitsBuffer, Flatten, Groups, MaxReach, NalsReach;
    AnyLossFits(st, Flatten(Groups(nals, |nals|, seqNo, timestamp)));
    NalsMax(|st.buf|, nals, |nals|, seqNo, timestamp);
  }

  // Without a middle fragment there is nothing that could pile up.
  lemma {:induction false} TwoFragmentsAreSafe(n: nat, nals: seq<Nal>, k: nat)
    requires n <= H264_BUF_SIZE - MAX_FRAG_PAYLOAD && k <= |nals|
    requires forall i | 0 <= i < k :: |nals[i]| <= 2 * MAX_FRAG_PAYLOAD + 1
    ensures NalsFill(n, nals, k) <= Max(n, FIRST_FILL) && NalsReach(n, nals, k) <= H264_BUF_SIZE
  {
    hide BeforeLast;
    if k > 0 {
      TwoFragmentsAreSafe(n, nals, k - 1);
      if |nals[k - 1]| > MAX_PAYLOAD_SIZE { OnlyOne(|nals[k - 1]| - 1 - MAX_FRAG_PAYLOAD); }
    }
  }

  // A NAL of three fragments, the first two of them full.
  predicate OfThreeFragments(nal: Nal) {
    2 * MAX_FRAG_PAYLOAD + 1 < |nal| <= 3 * MAX_FRAG_PAYLOAD + 1
  }

  // With three fragments each, the middle ones do: one more for every NAL.
  lemma {:induction false} MiddlesPileUp(n: nat, nals: seq<Nal>, k: nat)
    requires 0 < k <= |nals| && forall i | 0 <= i < k :: OfThreeFragments(nals[i])
    ensures NalsFill(n, nals, k) == Max(n, FIRST_FILL) + k * MAX_FRAG_PAYLOAD
  {
    assert BeforeLast(|nals[k - 1]| - 1 - MAX_FRAG_PAYLOAD) == MAX_FRAG_PAYLOAD;
    if k > 1 {
      MiddlesPileUp(n, nals, k - 1);
    } else {
      assert NalsFill(n, nals, 0) == n;
    }
  }

  // NALs of 4387 bytes, each far smaller than the buffer, can overrun that of an idle receiver
  // exactly when they are 135 or more.
  lemma LossOverrunsTheBuffer(nals: seq<Nal>, seqNo: nat, timestamp: nat)
    requires seqNo < UINT16 && timestamp < 0x1_0000_0000
    requires forall i | 0 <= i < |nals| :: |nals[i]| == 3 * MAX_FRAG_PAYLOAD + 1
    ensures (exists received :: Lossy(received, Flatten(Groups(nals, |nals|, seqNo, timestamp)))
                                && !FitsBuffer(Assembly([], []), received))
      <==> |nals| >= 135
  {
    hide Lossy, FitsBuffer, Flatten, Groups, NalsReach;
    AnyLossOfNalsFits(Assembly([], []), nals, seqNo, timestamp);
    ManyReach(nals, |nals|);
  }

  lemma {:induction false} ManyReach(nals: seq<Nal>, k: nat)
    requires k <= |nals| && forall i | 0 <= i < |nals| :: |nals[i]| == 3 * MAX_FRAG_PAYLOAD + 1
    ensures NalsReach(0, nals, k) == if k == 0 then 0 else FIRST_FILL + (k + 1) * MAX_FRAG_PAYLOAD
  {
    hide NalsFill;
    if k > 0 {
      ManyReach(nals, k - 1);
      if k > 1 { MiddlesPileUp(0, nals, k - 1); } else { assert NalsFill(0, nals, 0) == 0 by { NoNals(0, nals); } }
    }
  }

  lemma NoNals(n: nat, nals: seq<Nal>)
    ensures NalsFill(n, nals, 0) == n
  {}
}
