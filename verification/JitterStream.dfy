/** A stream of packets in order, as the jitter buffer plays it: every byte at its own time. */
module JitterStream {
  import opened Common
  import opened FrameRing
  import opened JitterModel
  import opened JitterRing
  import opened JitterIdeal

  /** A payload of n whole frames. */
  predicate Whole(data: seq<byte>, size: nat, n: nat) {
    |data| == After(0, size, n)
  }

  datatype Chunk = Chunk(data: seq<byte>, n: nat)

  function Flat(chunks: seq<Chunk>): seq<byte> {
    if chunks == [] then [] else Flat(chunks[..|chunks| - 1]) + chunks[|chunks| - 1].data
  }

  function Total(chunks: seq<Chunk>): nat {
    if chunks == [] then 0 else Total(chunks[..|chunks| - 1]) + chunks[|chunks| - 1].n
  }

  predicate AllWhole(chunks: seq<Chunk>, size: nat) {
    forall c :: c in chunks ==> Whole(c.data, size, c.n)
  }

  /** Packets, each with the timestamp where the one before it ends; only the first may have the marker. */
  function Stream(p: Setup, t: u32, marker: bool, chunks: seq<Chunk>): seq<Action> {
    if chunks == [] then []
    else
      var before := chunks[..|chunks| - 1];
      Stream(p, t, marker, before) +
      [Audio(chunks[|chunks| - 1].data, U32(t + After(0, p.frameTs, Total(before))), marker && before == [])]
  }

  /** What is heard of a stream of m frames that starts with frame index d. */
  function Heard(data: seq<byte>, size: nat, d: nat, m: nat, k: nat): Content {
    if d <= k < d + m then FrameBytes(data, size, k - d) else Silence
  }

  // ----- frames of a concatenation -----

  lemma FrameIs(data: seq<byte>, size: nat, n: nat, j: nat)
    requires Whole(data, size, n) && j < n
    ensures var x := After(0, size, j);
            x + size <= |data| && FrameBytes(data, size, j) == Content(Some(data[x..x + size]), None, NoMarker)
  {
    AfterNext(0, size, j);
    AfterMonotone(0, size, j + 1, n);
  }

  lemma WholeSum(a: seq<byte>, b: seq<byte>, size: nat, n: nat, m: nat)
    requires Whole(a, size, n) && Whole(b, size, m)
    ensures Whole(a + b, size, n + m)
  {
    AfterSplit(size, n, m);
  }

  lemma FirstFrames(a: seq<byte>, b: seq<byte>, size: nat, n: nat, m: nat, j: nat)
    requires Whole(a, size, n) && Whole(b, size, m) && j < n
    ensures FrameBytes(a + b, size, j) == FrameBytes(a, size, j)
  {
    var x := After(0, size, j);
    FrameIs(a, size, n, j);
    assert (a + b)[x..x + size] == a[x..x + size];
  }

  lemma LaterFrames(a: seq<byte>, b: seq<byte>, size: nat, n: nat, m: nat, j: nat)
    requires Whole(a, size, n) && Whole(b, size, m) && j < m
    ensures FrameBytes(a + b, size, n + j) == FrameBytes(b, size, j)
  {
    var x := After(0, size, j);
    AfterSplit(size, n, j);
    FrameIs(b, size, m, j);
    assert (a + b)[|a| + x..|a| + x + size] == b[x..x + size];
  }

  lemma HeardAfter(packets: seq<Packet>, size: nat, d: nat, done: seq<byte>, m: nat, q: Packet, k: nat)
    requires Whole(done, size, m) && Whole(q.data, size, q.count) && q.at == d + m
    requires KeptAt(packets, size, k) == Heard(done, size, d, m, k)
    ensures KeptAt(packets + [q], size, k) == Heard(done + q.data, size, d, m + q.count, k)
  {
    KeptAfter(packets, q, size, k);
    if d <= k < d + m {
      FirstFrames(done, q.data, size, m, q.count, k - d);
    } else if q.at <= k < q.at + q.count {
      LaterFrames(done, q.data, size, m, q.count, k - q.at);
    }
  }

  // ----- the packets -----

  lemma {:induction false} AfterFrom(x: nat, n: nat, k: nat)
    ensures After(x, n, k) == x + After(0, n, k)
    decreases k
  {
    if k > 0 {
      AfterFrom(x + n, n, k - 1);
      AfterFrom(n, n, k - 1);
    }
  }

  lemma WrapBack(t: u32, x: nat, delay: nat)
    requires delay + x < 0x1_0000_0000
    ensures (delay + U32(t + x) - t) % 0x1_0000_0000 == delay + x
  {
  }

  /** The next packet of a stream belongs right behind those before it. */
  lemma NextIndex(p: Setup, s: Ideal, t: u32, m: nat)
    requires p.Valid() && s.anchor == Some(t as int) && s.delay == p.initialTs
    requires p.initialTs + After(0, p.frameTs, m) < 0x1_0000_0000
    ensures IndexOf(p, s, U32(t + After(0, p.frameTs, m))) == Steps(p.initialTs, p.frameTs) + m
  {
    WrapBack(t, After(0, p.frameTs, m), p.initialTs);
    AfterFrom(p.initialTs, p.frameTs, m);
    StepsAfter(p.initialTs, p.frameTs, m);
  }

  /** The ideal buffer after m frames of a stream that starts with timestamp t and frame index d. */
  ghost predicate Streaming(p: Setup, s: Ideal, t: u32, d: nat, done: seq<byte>, m: nat) {
    && (s.anchor == Some(t as int) || (s.anchor == None && m == 0)) && s.delay == p.initialTs && s.played == 0 && s.frames == []
    && Whole(done, p.frameSize, m) && (if m == 0 then s.end <= d else s.end == d + m)
    && forall k: nat :: KeptAt(s.packets, p.frameSize, k) == Heard(done, p.frameSize, d, m, k)
  }

  lemma KeptStreaming(p: Setup, s: Ideal, t: u32, d: nat, done: seq<byte>, m: nat, data: seq<byte>, n: nat)
    requires Streaming(p, s, t, d, done, m) && s.anchor == Some(t as int) && Whole(data, p.frameSize, n)
    ensures Streaming(p, With(s, Packet(d + m, n, data)), t, d, done + data, m + n)
  {
    var q := Packet(d + m, n, data);
    WholeSum(done, data, p.frameSize, m, n);
    forall k: nat
      ensures KeptAt(s.packets + [q], p.frameSize, k) == Heard(done + data, p.frameSize, d, m + n, k)
    {
      HeardAfter(s.packets, p.frameSize, d, done, m, q, k);
    }
  }

  lemma {:induction false} WholeCount(p: Setup, data: seq<byte>, n: nat)
    requires p.frameSize > 0 && Whole(data, p.frameSize, n)
    ensures WholeFrames(p, data) == n
  {
    StepsAfter(0, p.frameSize, n);
  }

  lemma StreamAnchored(p: Setup, s: Ideal, t: u32, d: nat, done: seq<byte>, m: nat, ts: u32, marker: bool)
    requires Streaming(p, s, t, d, done, m) && (marker ==> m == 0) && ts == U32(t + After(0, p.frameTs, m))
    ensures Anchored(p, s, ts, marker) == s.(anchor := Some(t as int))
  {
  }

  /** A packet that belongs to index i, before any read. */
  lemma ArrivesAt(p: Setup, s: Ideal, data: seq<byte>, ts: u32, marker: bool, i: nat, n: nat)
    requires p.Valid() && s.played == 0 && i + n <= p.capacity && WholeFrames(p, data) == n
    requires var s' := Anchored(p, s, ts, marker); IndexOf(p, s', ts) == i && s'.played == 0
    ensures Regular(p, s, Audio(data, ts, marker))
    ensures var s' := Anchored(p, s, ts, marker);
            Arrive(p, s, data, ts, marker) ==
            if i == p.capacity then s' else With(s', Packet(i, n, data))
  {
  }

  /** The index of the next packet of a stream. */
  lemma StreamIndex(p: Setup, s: Ideal, t: u32, d: nat, m: nat, ts: u32)
    requires p.Valid() && s.anchor == Some(t as int) && s.delay == p.initialTs && d == Steps(p.initialTs, p.frameTs)
    requires TimeFits(p, 0) && m <= p.capacity && ts == U32(t + After(0, p.frameTs, m))
    ensures IndexOf(p, s, ts) == d + m
  {
    WindowFits(p, 0, m);
    NextIndex(p, s, t, m);
  }

  /** One packet of a stream. */
  lemma StreamStep(p: Setup, s: Ideal, t: u32, d: nat, done: seq<byte>, m: nat, data: seq<byte>, n: nat, ts: u32, marker: bool)
    requires p.Valid() && p.frameSize > 0 && Streaming(p, s, t, d, done, m) && d == Steps(p.initialTs, p.frameTs)
    requires Whole(data, p.frameSize, n) && TimeFits(p, 0) && (marker ==> m == 0) && d + m + n <= p.capacity
    requires ts == U32(t + After(0, p.frameTs, m))
    ensures Regular(p, s, Audio(data, ts, marker))
    ensures Streaming(p, Arrive(p, s, data, ts, marker), t, d, done + data, m + n)
  {
    StreamAnchored(p, s, t, d, done, m, ts, marker);
    var s' := s.(anchor := Some(t as int));
    StreamIndex(p, s', t, d, m, ts);
    WholeCount(p, data, n);
    ArrivesAt(p, s, data, ts, marker, d + m, n);
    StreamArrived(p, s', t, d, done, m, data, n);
  }

  lemma StreamArrived(p: Setup, s: Ideal, t: u32, d: nat, done: seq<byte>, m: nat, data: seq<byte>, n: nat)
    requires Streaming(p, s, t, d, done, m) && s.anchor == Some(t as int) && Whole(data, p.frameSize, n)
    requires d + m + n <= p.capacity
    ensures Streaming(p, if d + m == p.capacity then s else With(s, Packet(d + m, n, data)), t, d, done + data, m + n)
  {
    if d + m == p.capacity {
      assert n == 0 && done + data == done;
    } else {
      KeptStreaming(p, s, t, d, done, m, data, n);
    }
  }

  lemma {:induction false} RunConcatIdeal(p: Setup, s: Ideal, a: seq<Action>, b: seq<Action>)
    requires p.Valid()
    ensures IdealRun(p, s, a + b) == IdealRun(p, IdealRun(p, s, a), b)
    ensures RegularRun(p, s, a) && RegularRun(p, IdealRun(p, s, a), b) ==> RegularRun(p, s, a + b)
    decreases |a|
  {
    if a == [] {
      assert a + b == b;
    } else {
      assert (a + b)[0] == a[0] && (a + b)[1..] == a[1..] + b;
      RunConcatIdeal(p, IdealStep(p, s, a[0]), a[1..], b);
    }
  }

  lemma RunOneIdeal(p: Setup, s: Ideal, a: Action)
    requires p.Valid()
    ensures IdealRun(p, s, [a]) == IdealStep(p, s, a)
    ensures TimeFits(p, s.played) && Regular(p, s, a) && TimeFits(p, IdealStep(p, s, a).played) ==> RegularRun(p, s, [a])
  {
    assert [a][1..] == [];
  }

  /** One more action after a regular run. */
  lemma RunThen(p: Setup, s0: Ideal, actions: seq<Action>, s: Ideal, a: Action)
    requires p.Valid() && RegularRun(p, s0, actions) && s == IdealRun(p, s0, actions)
    requires TimeFits(p, s.played) && Regular(p, s, a) && TimeFits(p, IdealStep(p, s, a).played)
    ensures RegularRun(p, s0, actions + [a]) && IdealRun(p, s0, actions + [a]) == IdealStep(p, s, a)
  {
    RunOneIdeal(p, s, a);
    RunConcatIdeal(p, s0, actions, [a]);
  }

  /** One more packet of a stream; `s` is the buffer before it. */
  lemma StreamExtends(p: Setup, s: Ideal, t: u32, d: nat, done: seq<byte>, m: nat, c: Chunk, a: Action)
    requires p.Valid() && p.frameSize > 0 && TimeFits(p, 0)
    requires Streaming(p, s, t, d, done, m) && d == Steps(p.initialTs, p.frameTs)
    requires Whole(c.data, p.frameSize, c.n) && d + m + c.n <= p.capacity
    requires a.Audio? && a.data == c.data && a.ts == U32(t + After(0, p.frameTs, m)) && (a.marker ==> m == 0)
    ensures TimeFits(p, s.played) && Regular(p, s, a) && TimeFits(p, IdealStep(p, s, a).played)
    ensures Streaming(p, IdealStep(p, s, a), t, d, done + c.data, m + c.n)
  {
    StreamStep(p, s, t, d, done, m, c.data, c.n, a.ts, a.marker);
  }

  lemma {:induction false} StreamKept(p: Setup, t: u32, marker: bool, chunks: seq<Chunk>)
    requires p.Valid() && p.frameSize > 0 && AllWhole(chunks, p.frameSize) && TimeFits(p, 0)
    requires Steps(p.initialTs, p.frameTs) + Total(chunks) <= p.capacity
    ensures var actions := Stream(p, t, marker, chunks);
            && RegularRun(p, IdealStart(p), actions)
            && Streaming(p, IdealRun(p, IdealStart(p), actions), t, Steps(p.initialTs, p.frameTs), Flat(chunks), Total(chunks))
    decreases |chunks|
  {
    if chunks != [] {
      var before, c := chunks[..|chunks| - 1], chunks[|chunks| - 1];
      StreamKept(p, t, marker, before);
      var a := Audio(c.data, U32(t + After(0, p.frameTs, Total(before))), marker && before == []);
      var actions := Stream(p, t, marker, before);
      var s := IdealRun(p, IdealStart(p), actions);
      StreamExtends(p, s, t, Steps(p.initialTs, p.frameTs), Flat(before), Total(before), c, a);
      RunThen(p, IdealStart(p), actions, s, a);
    }
  }

  // ----- the reads -----

  function Played(size: nat, end: nat, packets: seq<Packet>, k: nat): Content {
    if end > k then KeptAt(packets, size, k) else Silence
  }

  /** The frames played from index k on. */
  function PlayedFrom(size: nat, end: nat, packets: seq<Packet>, k: nat, n: nat): (frames: seq<Content>)
    ensures |frames| == n
    decreases n
  {
    if n == 0 then [] else [Played(size, end, packets, k)] + PlayedFrom(size, end, packets, k + 1, n - 1)
  }

  lemma {:induction false} PlayedAt(size: nat, end: nat, packets: seq<Packet>, k: nat, n: nat, i: nat)
    requires i < n
    ensures PlayedFrom(size, end, packets, k, n)[i] == Played(size, end, packets, k + i)
    decreases n
  {
    if i > 0 {
      PlayedAt(size, end, packets, k + 1, n - 1, i - 1);
    }
  }

  lemma FirstRead(p: Setup, s: Ideal, n: nat) returns (s1: Ideal)
    requires p.Valid() && n > 0
    ensures IdealRun(p, s, Reads(n)) == IdealRun(p, s1, Reads(n - 1))
    ensures s1.end == s.end && s1.packets == s.packets && s1.played == s.played + 1
    ensures s1.frames == s.frames + [Played(p.frameSize, s.end, s.packets, s.played)]
  {
    s1 := IdealStep(p, s, Fetch);
    assert Reads(n)[0] == Fetch && Reads(n)[1..] == Reads(n - 1);
  }

  lemma {:induction false} ReadsPlay(p: Setup, s: Ideal, n: nat)
    requires p.Valid()
    ensures IdealRun(p, s, Reads(n)).frames == s.frames + PlayedFrom(p.frameSize, s.end, s.packets, s.played, n)
    decreases n
  {
    if n == 0 {
      assert s.frames + [] == s.frames;
    } else {
      var s1 := FirstRead(p, s, n);
      ReadsPlay(p, s1, n - 1);
      ConcatAssoc(s.frames, [Played(p.frameSize, s.end, s.packets, s.played)],
                  PlayedFrom(p.frameSize, s.end, s.packets, s.played + 1, n - 1));
    }
  }

  lemma {:induction false} ReadsRegular(p: Setup, s: Ideal, n: nat)
    requires p.Valid() && TimeFits(p, s.played + n)
    ensures RegularRun(p, s, Reads(n))
    decreases n
  {
    AfterMonotone(0, p.frameTs, s.played + p.capacity + 1, s.played + n + p.capacity + 1);
    if n > 0 {
      assert Reads(n)[1..] == Reads(n - 1);
      ReadsRegular(p, IdealStep(p, s, Fetch), n - 1);
    }
  }

  lemma StreamReads(p: Setup, s: Ideal, t: u32, d: nat, done: seq<byte>, m: nat, n: nat, k: nat)
    requires p.Valid() && Streaming(p, s, t, d, done, m) && k < n
    ensures var frames := IdealRun(p, s, Reads(n)).frames; |frames| == n && frames[k] == Heard(done, p.frameSize, d, m, k)
  {
    ReadsPlay(p, s, n);
    PlayedAt(p.frameSize, s.end, s.packets, s.played, n, k);
    assert KeptAt(s.packets, p.frameSize, k) == Heard(done, p.frameSize, d, m, k);
  }

  lemma RunThenReads(p: Setup, actions: seq<Action>, s: Ideal, n: nat)
    requires p.Valid() && RegularRun(p, IdealStart(p), actions) && s == IdealRun(p, IdealStart(p), actions)
    requires TimeFits(p, s.played + n)
    ensures Run(p, Start(p), actions + Reads(n)).frames == IdealRun(p, s, Reads(n)).frames
  {
    ReadsRegular(p, s, n);
    RunConcatIdeal(p, IdealStart(p), actions, Reads(n));
    PlaysIdeally(p, actions + Reads(n));
  }

  /** A stream that fits the window, and then n reads: the first frames up to the delay are silence, then every frame of
      the concatenated payloads comes once and in order, then silence. */
  lemma StreamIsPlayed(p: Setup, t: u32, marker: bool, chunks: seq<Chunk>, n: nat, k: nat)
    requires p.Valid() && p.frameSize > 0 && AllWhole(chunks, p.frameSize) && TimeFits(p, n) && k < n
    requires Steps(p.initialTs, p.frameTs) + Total(chunks) <= p.capacity
    ensures var frames := Run(p, Start(p), Stream(p, t, marker, chunks) + Reads(n)).frames;
            && |frames| == n
            && frames[k] == Heard(Flat(chunks), p.frameSize, Steps(p.initialTs, p.frameTs), Total(chunks), k)
  {
    var actions := Stream(p, t, marker, chunks);
    AfterMonotone(0, p.frameTs, p.capacity + 1, n + p.capacity + 1);
    StreamKept(p, t, marker, chunks);
    var s := IdealRun(p, IdealStart(p), actions);
    RunThenReads(p, actions, s, n);
    StreamReads(p, s, t, Steps(p.initialTs, p.frameTs), Flat(chunks), Total(chunks), n, k);
  }
}
