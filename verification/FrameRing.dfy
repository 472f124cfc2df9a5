/** The cyclic frame store of the jitter buffer, seen as a map from frame index to frame.

    A timestamp ts belongs to frame index ts / frameTs (`Steps`), and index k lives in slot k % N (`Residue`).  At any
    time only the N indices from the read index on can be told apart; `Mirrors` says that for each
    of them the slot shows exactly what was last written for that index. */
module FrameRing {
  import opened Common

  datatype Marker = NoMarker | StartOfEvent | EndOfEvent | NewSegment

  datatype NamedEvent = NamedEvent(id: byte, volume: byte, edge: bool, duration: u16)

  /** A raw slot: `data` and `ev` keep their bytes after the frame has been read. */
  datatype Slot = Slot(audio: bool, event: bool, marker: Marker, data: seq<byte>, ev: NamedEvent)

  /** What a reader of the frame observes. */
  datatype Content = Content(audio: Option<seq<byte>>, event: Option<NamedEvent>, marker: Marker)

  const Silence := Content(None, None, NoMarker)

  function View(s: Slot): Content {
    Content(if s.audio then Some(s.data) else None, if s.event then Some(s.ev) else None, s.marker)
  }

  /** One frame placed into the buffer at a frame index. */
  datatype Placement =
    | AudioAt(index: nat, data: seq<byte>)
    | EventAt(index: nat, ev: NamedEvent, marker: Option<Marker>)

  function Apply(c: Content, p: Placement): Content {
    match p
    case AudioAt(_, data) => c.(audio := Some(data))
    case EventAt(_, ev, m) => c.(event := Some(ev), marker := if m.Some? then m.value else c.marker)
  }

  /** The reference: what the placements so far say about index k. */
  function LastWritten(log: seq<Placement>, k: nat): Content {
    if log == [] then Silence
    else
      var before := LastWritten(log[..|log| - 1], k);
      if log[|log| - 1].index == k then Apply(before, log[|log| - 1]) else before
  }

  ghost predicate Mirrors(ring: seq<Slot>, log: seq<Placement>, r: nat) {
    && |ring| > 0
    && (forall k :: r <= k < r + |ring| ==> View(ring[Residue(k, |ring|)]) == LastWritten(log, k))
    && (forall p :: p in log ==> p.index < r + |ring|)
  }

  lemma {:induction false} UnwrittenIsSilent(log: seq<Placement>, k: nat)
    requires forall p :: p in log ==> p.index != k
    ensures LastWritten(log, k) == Silence
  {
    if log != [] {
      UnwrittenIsSilent(log[..|log| - 1], k);
    }
  }

  lemma LastWrittenAfter(log: seq<Placement>, p: Placement, k: nat)
    ensures LastWritten(log + [p], k) ==
            if p.index == k then Apply(LastWritten(log, k), p) else LastWritten(log, k)
  {
    assert (log + [p])[..|log|] == log;
  }

  /** Writing one frame inside the window updates its index and no other. */
  lemma PutMirrors(ring: seq<Slot>, log: seq<Placement>, r: nat, p: Placement, slot: Slot)
    requires Mirrors(ring, log, r)
    requires r <= p.index < r + |ring|
    requires View(slot) == Apply(View(ring[Residue(p.index, |ring|)]), p)
    ensures Mirrors(ring[Residue(p.index, |ring|) := slot], log + [p], r)
  {
    var ring' := ring[Residue(p.index, |ring|) := slot];
    forall k | r <= k < r + |ring|
      ensures View(ring'[Residue(k, |ring|)]) == LastWritten(log + [p], k)
    {
      LastWrittenAfter(log, p, k);
      if k < p.index {
        ResiduesDiffer(k, p.index, |ring|);
      } else if p.index < k {
        ResiduesDiffer(p.index, k, |ring|);
      }
    }
  }

  /** Clearing the slot of the read index and moving on keeps the correspondence. */
  lemma TakeMirrors(ring: seq<Slot>, log: seq<Placement>, r: nat, cleared: Slot)
    requires Mirrors(ring, log, r)
    requires View(cleared) == Silence
    ensures Mirrors(ring[Residue(r, |ring|) := cleared], log, r + 1)
  {
    var ring' := ring[Residue(r, |ring|) := cleared];
    forall k | r + 1 <= k < r + 1 + |ring|
      ensures View(ring'[Residue(k, |ring|)]) == LastWritten(log, k)
    {
      if k == r + |ring| {
        UnwrittenIsSilent(log, k);
      } else {
        ResiduesDiffer(r, k, |ring|);
      }
    }
  }

  /** The slot a timestamp falls into. */
  function SlotOf(ts: u32, frameTs: u32, n: nat): (i: nat)
    requires n > 0 && frameTs > 0
    ensures i < n
  {
    Residue(Steps(ts, frameTs), n)
  }

  /** The placement loop: consecutive frames go to consecutive slots, with 32-bit timestamps. */
  function PutAudio(ring: seq<Slot>, frameTs: u32, ts: u32, chunks: seq<seq<byte>>): (ring': seq<Slot>)
    requires |ring| > 0 && frameTs > 0
    ensures |ring'| == |ring|
    decreases |chunks|
  {
    if chunks == [] then ring
    else
      var i := SlotOf(ts, frameTs, |ring|);
      PutAudio(ring[i := ring[i].(audio := true, data := chunks[0])], frameTs, U32(ts + frameTs), chunks[1..])
  }

  function AudioLog(k: nat, chunks: seq<seq<byte>>): (log: seq<Placement>)
    ensures forall p :: p in log ==> k <= p.index < k + |chunks|
    decreases |chunks|
  {
    if chunks == [] then [] else [AudioAt(k, chunks[0])] + AudioLog(k + 1, chunks[1..])
  }

  /** The same loop over unbounded frame indices. */
  function PutAt(ring: seq<Slot>, k: nat, chunks: seq<seq<byte>>): (ring': seq<Slot>)
    requires |ring| > 0
    ensures |ring'| == |ring|
    decreases |chunks|
  {
    if chunks == [] then ring
    else
      var i := Residue(k, |ring|);
      PutAt(ring[i := ring[i].(audio := true, data := chunks[0])], k + 1, chunks[1..])
  }

  lemma {:induction false} PutAudioIsPutAt(ring: seq<Slot>, frameTs: u32, ts: u32, chunks: seq<seq<byte>>)
    requires |ring| > 0 && frameTs > 0 && After(ts, frameTs, |chunks|) < 0x1_0000_0000
    ensures PutAudio(ring, frameTs, ts, chunks) == PutAt(ring, Steps(ts, frameTs), chunks)
    decreases |chunks|
  {
    if chunks != [] {
      var i := SlotOf(ts, frameTs, |ring|);
      PutAudioIsPutAt(ring[i := ring[i].(audio := true, data := chunks[0])], frameTs, ts + frameTs, chunks[1..]);
    }
  }

  lemma {:induction false} PutAtMirrors(ring: seq<Slot>, log: seq<Placement>, r: nat, k: nat, chunks: seq<seq<byte>>,
                                        ring': seq<Slot>, log': seq<Placement>)
    requires Mirrors(ring, log, r)
    requires r <= k && k + |chunks| <= r + |ring|
    requires ring' == PutAt(ring, k, chunks) && log' == log + AudioLog(k, chunks)
    ensures Mirrors(ring', log', r)
    decreases |chunks|
  {
    if chunks == [] {
      assert log' == log;
    } else {
      var p := AudioAt(k, chunks[0]);
      var slot := ring[Residue(k, |ring|)].(audio := true, data := chunks[0]);
      var ring1, log1 := ring[Residue(k, |ring|) := slot], log + [p];
      assert Mirrors(ring1, log1, r) by {
        PutMirrors(ring, log, r, p, slot);
      }
      assert log' == log1 + AudioLog(k + 1, chunks[1..]);
      PutAtMirrors(ring1, log1, r, k + 1, chunks[1..], ring', log');
    }
  }

  /** Frames placed inside the window, with no 32-bit wrap, refine the map. */
  lemma PutAudioMirrors(ring: seq<Slot>, log: seq<Placement>, r: nat, frameTs: u32, ts: u32, chunks: seq<seq<byte>>)
    requires Mirrors(ring, log, r) && frameTs > 0
    requires After(ts, frameTs, |chunks|) < 0x1_0000_0000
    requires r <= Steps(ts, frameTs) && Steps(ts, frameTs) + |chunks| <= r + |ring|
    ensures Mirrors(PutAudio(ring, frameTs, ts, chunks), log + AudioLog(Steps(ts, frameTs), chunks), r)
  {
    PutAudioIsPutAt(ring, frameTs, ts, chunks);
    PutAtMirrors(ring, log, r, Steps(ts, frameTs), chunks,
                 PutAudio(ring, frameTs, ts, chunks), log + AudioLog(Steps(ts, frameTs), chunks));
  }

  /** A placement never turns an audio slot back into one without audio. */
  lemma {:induction false} PutAudioKeepsAudio(ring: seq<Slot>, frameTs: u32, ts: u32, chunks: seq<seq<byte>>, s: nat)
    requires s < |ring| && frameTs > 0
    requires ring[s].audio || (chunks != [] && s == Residue(Steps(ts, frameTs), |ring|))
    ensures PutAudio(ring, frameTs, ts, chunks)[s].audio
    decreases |chunks|
  {
    if chunks != [] {
      var i := SlotOf(ts, frameTs, |ring|);
      PutAudioKeepsAudio(ring[i := ring[i].(audio := true, data := chunks[0])], frameTs, U32(ts + frameTs), chunks[1..], s);
    }
  }

  /** A placement of audio leaves the event of every slot. */
  lemma {:induction false} PutAudioKeepsEvents(ring: seq<Slot>, frameTs: u32, ts: u32, chunks: seq<seq<byte>>, s: nat)
    requires s < |ring| && frameTs > 0
    ensures PutAudio(ring, frameTs, ts, chunks)[s].ev == ring[s].ev
    decreases |chunks|
  {
    if chunks != [] {
      var i := SlotOf(ts, frameTs, |ring|);
      PutAudioKeepsEvents(ring[i := ring[i].(audio := true, data := chunks[0])], frameTs, U32(ts + frameTs), chunks[1..], s);
    }
  }

  /** No unread frame of another index is touched by a placement of `chunks` at timestamp ts. */
  ghost predicate KeepsOthers(ring: seq<Slot>, r: nat, frameTs: u32, ts: u32, chunks: seq<seq<byte>>)
    requires |ring| > 0 && frameTs > 0
  {
    forall i :: r <= i < r + |ring| && !(Steps(ts, frameTs) <= i < Steps(ts, frameTs) + |chunks|) ==>
                  View(PutAudio(ring, frameTs, ts, chunks)[Residue(i, |ring|)]) == View(ring[Residue(i, |ring|)])
  }

  /** Number of frames the write loop may place: a 64-bit unsigned difference. */
  function Available(n: nat, distance: nat): nat {
    (n - distance) % 0x1_0000_0000_0000_0000
  }

  /** The frames of a packet that the write loop places when it starts `distance` frames ahead of the reader. */
  function Admitted(n: nat, distance: nat, chunks: seq<seq<byte>>): seq<seq<byte>> {
    chunks[..Min(Available(n, distance), |chunks|)]
  }

  lemma AdmittedFits(n: nat, distance: nat, chunks: seq<seq<byte>>)
    requires n < 0x1_0000_0000 && distance < 0x1_0000_0000
    ensures Available(n, distance) == 0 <==> distance == n
    ensures distance <= n ==> distance + |Admitted(n, distance, chunks)| <= n
  {
  }

  lemma {:induction false} PutAtKeepsOthers(ring: seq<Slot>, r: nat, k: nat, chunks: seq<seq<byte>>, i: nat)
    requires |ring| > 0 && r <= k && k + |chunks| <= r + |ring|
    requires r <= i < r + |ring| && !(k <= i < k + |chunks|)
    ensures PutAt(ring, k, chunks)[Residue(i, |ring|)] == ring[Residue(i, |ring|)]
    decreases |chunks|
  {
    if chunks != [] {
      if i < k {
        ResiduesDiffer(i, k, |ring|);
      } else {
        ResiduesDiffer(k, i, |ring|);
      }
      var slot := ring[Residue(k, |ring|)].(audio := true, data := chunks[0]);
      PutAtKeepsOthers(ring[Residue(k, |ring|) := slot], r, k + 1, chunks[1..], i);
    }
  }

  lemma InsideKeepsOthers(ring: seq<Slot>, r: nat, frameTs: u32, ts: u32, chunks: seq<seq<byte>>)
    requires |ring| > 0 && frameTs > 0
    requires After(ts, frameTs, |chunks|) < 0x1_0000_0000
    requires r <= Steps(ts, frameTs) && Steps(ts, frameTs) + |chunks| <= r + |ring|
    ensures KeepsOthers(ring, r, frameTs, ts, chunks)
  {
    PutAudioIsPutAt(ring, frameTs, ts, chunks);
    forall i | r <= i < r + |ring| && !(Steps(ts, frameTs) <= i < Steps(ts, frameTs) + |chunks|)
      ensures View(PutAudio(ring, frameTs, ts, chunks)[Residue(i, |ring|)]) == View(ring[Residue(i, |ring|)])
    {
      PutAtKeepsOthers(ring, r, Steps(ts, frameTs), chunks, i);
    }
  }

  /** The index of the read window that shares a slot with k. */
  lemma WindowIndex(n: nat, r: nat, k: nat) returns (i: nat)
    requires n > 0 && r <= k
    ensures r <= i < r + n && Residue(i, n) == Residue(k, n)
    decreases k
  {
    if k < r + n {
      i := k;
    } else {
      i := WindowIndex(n, r, k - n);
    }
  }

  /** Beyond the window, an otherwise idle ring gains audio for an index nobody wrote. */
  lemma BeyondWindowOverwrites(n: nat, r: nat, frameTs: u32, ts: u32, chunks: seq<seq<byte>>) returns (ring: seq<Slot>)
    requires n > 0 && frameTs > 0 && chunks != []
    requires r + n <= Steps(ts, frameTs)
    ensures |ring| == n && !KeepsOthers(ring, r, frameTs, ts, chunks)
  {
    ring := seq(n, _ => Slot(false, false, NoMarker, [], NamedEvent(0, 0, false, 0)));
    var i := WindowIndex(n, r, Steps(ts, frameTs));
    PutAudioKeepsAudio(ring, frameTs, ts, chunks, Residue(i, n));
  }

  lemma {:induction false} StepsBound(x: nat, n: nat)
    requires n > 0
    ensures Steps(x, n) <= x
    decreases x
  {
    if x >= n {
      StepsBound(x - n, n);
    }
  }

  lemma NearIsSafe(ring: seq<Slot>, r: nat, frameTs: u32, ts: u32, chunks: seq<seq<byte>>)
    requires 0 < |ring| < 0x1_0000_0000 && frameTs > 0
    requires r <= Steps(ts, frameTs) <= r + |ring|
    requires After(ts, frameTs, |chunks|) < 0x1_0000_0000
    ensures KeepsOthers(ring, r, frameTs, ts, Admitted(|ring|, Steps(ts, frameTs) - r, chunks))
  {
    var admitted := Admitted(|ring|, Steps(ts, frameTs) - r, chunks);
    StepsBound(ts, frameTs);
    AdmittedFits(|ring|, Steps(ts, frameTs) - r, chunks);
    AfterMonotone(ts, frameTs, |admitted|, |chunks|);
    InsideKeepsOthers(ring, r, frameTs, ts, admitted);
  }

  lemma FarIsUnsafe(n: nat, r: nat, frameTs: u32, ts: u32, chunks: seq<seq<byte>>) returns (ring: seq<Slot>)
    requires 0 < n < 0x1_0000_0000 && frameTs > 0 && chunks != []
    requires r + n < Steps(ts, frameTs)
    ensures |ring| == n
    ensures !KeepsOthers(ring, r, frameTs, ts, Admitted(n, Steps(ts, frameTs) - r, chunks))
  {
    StepsBound(ts, frameTs);
    ring := BeyondWindowOverwrites(n, r, frameTs, ts, Admitted(n, Steps(ts, frameTs) - r, chunks));
  }

  /** The "too early" test of the write path compares an unsigned count with <= 0, so it only stops a
      packet exactly N frames ahead.  Over all ring contents, other unread frames are safe exactly when
      the packet starts at most N frames ahead of the reader or brings no complete frame. */
  lemma TooEarlyTestIsSafeExactlyUpToCapacity(n: nat, r: nat, frameTs: u32, ts: u32, chunks: seq<seq<byte>>)
    requires 0 < n < 0x1_0000_0000 && frameTs > 0
    requires r <= Steps(ts, frameTs)
    requires After(ts, frameTs, |chunks|) < 0x1_0000_0000
    ensures (forall ring: seq<Slot> | |ring| == n ::
               KeepsOthers(ring, r, frameTs, ts, Admitted(n, Steps(ts, frameTs) - r, chunks)))
            <==> Steps(ts, frameTs) - r <= n || chunks == []
  {
    if Steps(ts, frameTs) - r <= n {
      forall ring: seq<Slot> | |ring| == n
        ensures KeepsOthers(ring, r, frameTs, ts, Admitted(n, Steps(ts, frameTs) - r, chunks))
      {
        NearIsSafe(ring, r, frameTs, ts, chunks);
      }
    } else if chunks != [] {
      var ring := FarIsUnsafe(n, r, frameTs, ts, chunks);
    }
  }
}
