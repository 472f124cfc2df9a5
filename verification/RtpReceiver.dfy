/** Sequence numbers and packet loss of an RTP receiver (libs/mpf/src/mpf_rtp_stream.c; appendices A.1 and A.3 of
    RFC 3550). */
module RtpReceivers {
  import opened Common

  const RTP_SEQ_MOD: nat := 0x1_0000
  const MAX_DROPOUT: nat := 3000
  const MAX_MISORDER: nat := 100

  /** The 16 bits of a sequence number that a packet carries. */
  function Carried(p: int): u16 {
    p % 0x1_0000
  }

  function Highest(packets: seq<int>): int
    requires packets != []
  {
    if |packets| == 1 then packets[0]
    else
      var h := Highest(packets[..|packets| - 1]);
      if packets[|packets| - 1] > h then packets[|packets| - 1] else h
  }

  /** Fewer than 3000 ahead of the highest sequence number so far, or behind it; but a packet that is less than 3000
      short of whole cycles behind looks as if it were ahead. */
  predicate Near(p: int, highest: int) {
    if p >= highest then p - highest < MAX_DROPOUT
    else (p - highest) % 0x1_0000 == 0 || (p - highest) % 0x1_0000 >= MAX_DROPOUT
  }

  /** This includes everything up to 62536 behind. */
  lemma WindowIsNear(p: int, highest: int)
    requires highest - 62536 <= p < highest + 3000
    ensures Near(p, highest)
  {
  }

  datatype History = History(cycles: u32, base: u16, max: u16)

  datatype Result = Update | Misorder | Drift

  /** The history stands for the highest sequence number, counted from the first one. */
  predicate Tracks(h: History, first: int, highest: int) {
    && h.base == Carried(first) && h.max == Carried(highest)
    && h.cycles + h.max - h.base == highest - first
  }

  function Advanced(h: History, seqNum: u16): History {
    if U16(seqNum - h.max) >= MAX_DROPOUT then h
    else h.(max := seqNum, cycles := if seqNum < h.max then U32(h.cycles + RTP_SEQ_MOD) else h.cycles)
  }

  function Max(a: int, b: int): int {
    if a > b then a else b
  }

  lemma DeltaOfCarried(p: int, highest: int)
    ensures U16(Carried(p) - Carried(highest)) == (p - highest) % 0x1_0000
  {
  }

  /** The highest sequence number stays known exactly when the packet is near. */
  lemma TracksExactly(h: History, first: int, highest: int, p: int)
    requires Tracks(h, first, highest) && highest - first + 0x2_0000 <= 0x1_0000_0000
    ensures Tracks(Advanced(h, Carried(p)), first, Max(highest, p)) <==> Near(p, highest)
  {
    DeltaOfCarried(p, highest);
  }

  // ----- lost packets -----

  /** Received sequence numbers that are not earlier than the first. */
  function InRange(packets: seq<int>): set<int>
    requires packets != []
  {
    set p | p in packets && p >= packets[0]
  }

  /** Sequence numbers between the first and the highest one. */
  function Range(first: int, highest: int): set<int>
    decreases highest - first + 1
  {
    if highest < first then {} else Range(first, highest - 1) + {highest}
  }

  /** Sequence numbers in the range that were never received. */
  function Missing(packets: seq<int>): nat
    requires packets != []
  {
    |Range(packets[0], Highest(packets)) - InRange(packets)|
  }

  predicate DistinctFromFirst(packets: seq<int>)
    requires packets != []
  {
    && (forall i, j :: 0 <= i < j < |packets| ==> packets[i] != packets[j])
    && (forall i :: 0 <= i < |packets| ==> packets[i] >= packets[0])
  }

  lemma {:induction false} RangeSize(first: int, highest: int)
    requires first <= highest + 1
    ensures |Range(first, highest)| == highest - first + 1
    ensures forall x :: x in Range(first, highest) <==> first <= x <= highest
    decreases highest - first + 1
  {
    if first <= highest {
      RangeSize(first, highest - 1);
    }
  }

  lemma {:induction false} HighestBounds(packets: seq<int>)
    requires packets != []
    ensures Highest(packets) >= packets[0] && forall i :: 0 <= i < |packets| ==> packets[i] <= Highest(packets)
    decreases |packets|
  {
    if |packets| > 1 {
      HighestBounds(packets[..|packets| - 1]);
    }
  }

  /** As many numbers in range as packets if and only if packets are distinct and none is earlier than the first. */
  lemma {:induction false} InRangeSize(packets: seq<int>)
    requires packets != []
    ensures |InRange(packets)| <= |packets| && (|InRange(packets)| == |packets| <==> DistinctFromFirst(packets))
    decreases |packets|
  {
    var n := |packets| - 1;
    if n == 0 {
      assert InRange(packets) == {packets[0]};
    } else {
      var before, p := packets[..n], packets[n];
      InRangeSize(before);
      assert packets == before + [p];
      assert InRange(packets) == if p >= packets[0] then InRange(before) + {p} else InRange(before);
      DistinctStep(before, p);
    }
  }

  lemma DistinctStep(before: seq<int>, p: int)
    requires before != []
    ensures DistinctFromFirst(before + [p]) <==> DistinctFromFirst(before) && p >= before[0] && p !in before
  {
    var packets := before + [p];
    if DistinctFromFirst(packets) {
      assert forall i :: 0 <= i < |before| ==> packets[i] == before[i];
      assert packets[|before|] == p;
    }
  }

  /** What the receiver reports when it is closed. */
  function LostOf(expected: int, received: int): int {
    if expected > received then expected - received else 0
  }

  /** The report is the number of missing packets exactly when packets are distinct and none is earlier than the
      first, or when nothing is missing. */
  lemma LostIsMissingExactly(packets: seq<int>)
    requires packets != []
    ensures LostOf(Highest(packets) - packets[0] + 1, |packets|) == Missing(packets)
            <==> DistinctFromFirst(packets) || Missing(packets) == 0
  {
    InRangeSize(packets);
    MissingSize(packets);
  }

  lemma MissingSize(packets: seq<int>)
    requires packets != []
    ensures Missing(packets) == Highest(packets) - packets[0] + 1 - |InRange(packets)|
  {
    HighestBounds(packets);
    RangeSize(packets[0], Highest(packets));
    DifferenceSize(Range(packets[0], Highest(packets)), InRange(packets));
  }

  lemma DifferenceSize(a: set<int>, b: set<int>)
    requires b <= a
    ensures |a - b| == |a| - |b|
  {
    assert a == (a - b) + b;
  }

  // ----- the receiver -----

  class Receiver {
    var cycles: u32
    var base: u16
    var max: u16
    var received: u32
    ghost var packets: seq<int>

    /** The packets received so far are counted. */
    ghost predicate Valid()
      reads this
    {
      received == |packets| && (packets == [] ==> cycles == 0)
    }

    /** The history stands for the highest sequence number received. */
    ghost predicate Tracking()
      reads this
    {
      packets != [] ==> Tracks(History(cycles, base, max), packets[0], Highest(packets))
    }

    constructor ()
      ensures Valid() && Tracking() && packets == []
    {
      cycles, base, max, received, packets := 0, 0, 0, 0, [];
    }

    method SeqUpdate(seqNum: u16) returns (result: Result)
      modifies this`cycles, this`max, this`received
      ensures History(cycles, base, max) == Advanced(old(History(cycles, base, max)), seqNum)
      ensures received == U32(old(received) + 1)
      ensures result.Update? <==> U16(seqNum - old(max)) < MAX_DROPOUT
      ensures result.Drift? <==> MAX_DROPOUT <= U16(seqNum - old(max)) <= RTP_SEQ_MOD - MAX_MISORDER
    {
      result := Update;
      var delta := U16(seqNum - max);
      if delta < MAX_DROPOUT {
        if seqNum < max {
          cycles := U32(cycles + RTP_SEQ_MOD);
        }
        max := seqNum;
      } else if delta <= RTP_SEQ_MOD - MAX_MISORDER {
        result := Drift;
      } else {
        result := Misorder;
      }
      received := U32(received + 1);
    }

    /** Takes a packet whose full sequence number is p, of which only 16 bits are known.  The highest sequence number
        stays known exactly if the packet is near. */
    method Receive(seqNum: u16, ghost p: int)
      requires Valid() && seqNum == Carried(p) && |packets| < 0xFFFF_FFFF
      modifies this
      ensures Valid() && packets == old(packets) + [p]
      ensures old(packets) == [] ==> Tracking()
      ensures old(packets) != [] && old(Tracking()) && Highest(old(packets)) - packets[0] <= 0xFFFE_0000 ==>
                (Tracking() <==> Near(p, Highest(old(packets))))
    {
      if received == 0 {
        base, max := seqNum, seqNum;
      }
      ghost var h := History(cycles, base, max);
      var result := SeqUpdate(seqNum);
      if packets != [] {
        if Tracks(h, packets[0], Highest(packets)) && Highest(packets) - packets[0] <= 0xFFFE_0000 {
          TracksExactly(h, packets[0], Highest(packets), p);
        }
        assert (packets + [p])[..|packets|] == packets;
      }
      packets := packets + [p];
    }

    /** The number of lost packets reported when the stream is closed. */
    method Lost() returns (lost: u32)
      requires Valid()
      ensures packets == [] ==> lost == 0
      ensures packets != [] && Tracking() && Highest(packets) - packets[0] < 0xFFFF_FFFF ==>
                (lost == Missing(packets) <==> DistinctFromFirst(packets) || Missing(packets) == 0)
    {
      lost := 0;
      if received > 0 {
        HighestBounds(packets);
        LostIsMissingExactly(packets);
        var expected := U32(cycles + max - base + 1);
        if expected > received {
          lost := expected - received;
        }
      }
    }
  }

  // ----- whole streams -----

  /** Every packet is near the highest one before it, and the range is not too long for 32 bits. */
  predicate AllNear(packets: seq<int>)
    decreases |packets|
  {
    |packets| <= 1 ||
    var before, p := packets[..|packets| - 1], packets[|packets| - 1];
    AllNear(before) && Near(p, Highest(before)) && Highest(before) - before[0] <= 0xFFFE_0000
  }

  lemma {:induction false} AllNearPrefix(packets: seq<int>, n: nat)
    requires AllNear(packets) && n <= |packets|
    ensures AllNear(packets[..n])
    decreases |packets|
  {
    if n == |packets| {
      assert packets[..n] == packets;
    } else if |packets| > 1 {
      var before := packets[..|packets| - 1];
      AllNearPrefix(before, n);
      assert before[..n] == packets[..n];
    }
  }

  /** Receives a stream and closes it: if every packet is near the highest one before it, the loss that is reported is the
      number of sequence numbers never received exactly if packets are distinct and none precedes the first, or nothing
      is missing. */
  method ReceiveAll(packets: seq<int>) returns (lost: u32)
    requires |packets| < 0xFFFF_FFFF
    ensures packets == [] ==> lost == 0
    ensures packets != [] && AllNear(packets) && Highest(packets) - packets[0] < 0xFFFF_FFFF ==>
              (lost == Missing(packets) <==> DistinctFromFirst(packets) || Missing(packets) == 0)
  {
    var r := new Receiver();
    for i := 0 to |packets|
      invariant r.Valid() && fresh(r) && r.packets == packets[..i]
      invariant AllNear(packets) ==> r.Tracking()
    {
      assert packets[..i + 1] == packets[..i] + [packets[i]];
      if AllNear(packets) {
        AllNearPrefix(packets, i + 1);
        assert packets[..i + 1][..i] == packets[..i];
      }
      r.Receive(Carried(packets[i]), packets[i]);
    }
    assert packets[..|packets|] == packets;
    lost := r.Lost();
  }
}
