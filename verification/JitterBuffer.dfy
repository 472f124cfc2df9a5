/** The jitter buffer object (libs/mpf/src/mpf_jitter_buffer.c): every operation updates the fields as the step of the
    same name in `JitterModel` says. */
module JitterBuffers {
  import opened Common
  import opened FrameRing
  import opened JitterModel
  import opened JitterRing
  import opened JitterDelays
  import opened JitterIdeal

  /** The event_write_update pointer: null, the stored base event, or the event of a ring slot. */
  datatype EventRef = NoUpdate | BaseEvent | SlotEvent(index: nat)

  class JitterBuffer {
    const config: Config
    const frameTs: u32
    const frameSize: nat
    const initialDelayTs: u32
    const maxPlayoutDelayTs: u32
    const frames: array<Slot>

    var playoutDelayTs: u32
    var writeSync: bool
    var writeTsOffset: i32
    var writeTs: u32
    var readTs: u32
    var minLengthTs: i32
    var maxLengthTs: i32
    var measurements: u32
    var eventBaseTs: u32
    var eventBase: NamedEvent
    var eventUpdate: EventRef

    /** Every frame placed and every frame read since creation, in order. */
    ghost var log: seq<Placement>
    ghost var played: seq<Content>

    ghost function Parameters(): Setup {
      Setup(frameTs, frameSize, frames.Length, initialDelayTs, maxPlayoutDelayTs, config.adaptive, config.skewDetection)
    }

    ghost predicate Valid()
      reads this
    {
      Parameters().Valid() && (eventUpdate.SlotEvent? ==> eventUpdate.index < frames.Length)
    }

    /** The event the update pointer designates; it follows the slot it points to. */
    function Update(): Option<NamedEvent>
      requires eventUpdate.SlotEvent? ==> eventUpdate.index < frames.Length
      reads this, frames
    {
      match eventUpdate
      case NoUpdate => None
      case BaseEvent => Some(eventBase)
      case SlotEvent(i) => Some(frames[i].ev)
    }

    ghost function State(): Clock
      requires Valid()
      reads this, frames
    {
      Clock(writeSync, writeTsOffset, writeTs, readTs, playoutDelayTs, minLengthTs, maxLengthTs, measurements,
            eventBase, eventBaseTs, Update())
    }

    ghost function Whole(): World
      requires Valid()
      reads this, frames
    {
      World(State(), frames[..], log, played)
    }

    /** A buffer without any frame is created but cannot be used; `HasFramesExactly` tells when. */
    constructor (c: Config, frameTs: u32, frameSize: nat)
      requires frameTs > 0
      ensures Parameters() == SetupOf(c, frameTs, frameSize) && fresh(frames)
      ensures frames.Length > 0 ==> Valid() && Whole() == Start(Parameters())
    {
      var cfg := Effective(c);
      config := cfg;
      this.frameTs := frameTs;
      this.frameSize := frameSize;
      var count := cfg.maxDelay / FRAME_TIME;
      frames := new Slot[count](_ => Slot(false, false, NoMarker, [], NoEvent));
      initialDelayTs := DelayTs(frameTs, cfg.initialDelay);
      playoutDelayTs := DelayTs(frameTs, cfg.initialDelay);
      maxPlayoutDelayTs := DelayTs(frameTs, cfg.maxDelay);
      writeSync, writeTsOffset := true, 0;
      writeTs, readTs := 0, 0;
      minLengthTs, maxLengthTs, measurements := 0, 0, 0;
      eventBaseTs, eventBase, eventUpdate := 0, NoEvent, NoUpdate;
      log, played := [], [];
      new;
      assert frames[..] == EmptyRing(frames.Length);
    }

    method Restart()
      requires Valid()
      modifies this`writeSync, this`writeTsOffset, this`writeTs, this`eventBaseTs, this`eventBase, this`eventUpdate,
               this`playoutDelayTs
      ensures Valid() && State() == Restarted(Parameters(), old(State()))
    {
      writeSync, writeTsOffset := true, 0;
      writeTs := readTs;
      eventBaseTs, eventBase, eventUpdate := 0, NoEvent, NoUpdate;
      if config.adaptive && playoutDelayTs == maxPlayoutDelayTs {
        playoutDelayTs := initialDelayTs;
      }
    }

    method StartOver()
      requires Valid()
      modifies this`minLengthTs, this`maxLengthTs, this`measurements
      ensures Valid() && State() == StartedOver(old(State()))
    {
      var mean := Mean(minLengthTs, maxLengthTs);
      minLengthTs, maxLengthTs, measurements := mean, mean, 0;
    }

    method UpdateStatistics()
      requires Valid()
      modifies this`minLengthTs, this`maxLengthTs, this`measurements
      ensures Valid() && State() == Measured(old(State()))
    {
      if measurements == 50 {
        StartOver();
      }
      var length := I32(writeTs - readTs);
      if length > maxLengthTs {
        maxLengthTs := length;
      } else if length < minLengthTs {
        minLengthTs := length;
      }
      measurements := U32(measurements + 1);
    }

    /** Empties the slot of the read index, which keeps its event for the update pointer. */
    method Take() returns (frame: Content)
      requires Valid()
      modifies frames
      ensures State() == old(State())
      ensures var i := SlotOf(readTs, frameTs, frames.Length);
              && frame == (if writeTs > readTs then View(old(frames[i])) else Silence)
              && frames[..] == old(frames[..])[i := old(frames[i]).(audio := false, event := false, marker := NoMarker)]
    {
      var i := SlotOf(readTs, frameTs, frames.Length);
      frame := if writeTs > readTs then View(frames[i]) else Silence;
      frames[i] := frames[i].(audio := false, event := false, marker := NoMarker);
    }

    method Read() returns (frame: Content)
      requires Valid()
      modifies this, frames
      ensures Valid() && Whole() == ReadFrame(Parameters(), old(Whole()))
      ensures Whole().frames == old(Whole()).frames + [frame]
    {
      frame := Take();
      played := played + [frame];
      readTs := U32(readTs + frameTs);
      if config.skewDetection {
        UpdateStatistics();
      }
    }

    /** Rounds a timestamp distance down to whole frames. */
    method AlignToFrame(ts: u32) returns (aligned: u32)
      requires frameTs > 0
      ensures aligned == AlignDown(ts, frameTs)
    {
      StepsIsDivision(ts, frameTs);
      aligned := ts;
      if ts % frameTs != 0 {
        aligned := ts - ts % frameTs;
      }
    }

    method PrepareWrite(ts: u32) returns (at: u32)
      requires Valid()
      modifies this`writeSync, this`writeTsOffset, this`minLengthTs, this`maxLengthTs, this`measurements
      ensures Valid() && State() == Synced(Parameters(), old(State()), ts)
      ensures at == Position(Parameters(), State(), ts)
    {
      if writeSync {
        writeTsOffset := I32(ts - readTs);
        writeSync := false;
        if config.skewDetection {
          minLengthTs, maxLengthTs, measurements := I32(playoutDelayTs), I32(playoutDelayTs), 0;
        }
      }
      at := U32(ts - writeTsOffset + playoutDelayTs);
      at := AlignToFrame(at);
    }

    /** The adjustment needed to place a late packet, raised if the observed spread of lengths asks for more. */
    method WidenDelta(delta: u32) returns (wide: u32)
      requires Valid()
      ensures wide == Widened(Parameters(), State(), delta)
    {
      wide := delta;
      var spread := U32(maxLengthTs - minLengthTs);
      if spread > U32(playoutDelayTs + delta) {
        wide := AlignToFrame(U32(spread - playoutDelayTs));
      }
    }

    method ShiftBy(skew: u32)
      requires Valid()
      modifies this`writeTsOffset, this`minLengthTs, this`maxLengthTs
      ensures Valid() && State() == Shifted(old(State()), skew)
    {
      writeTsOffset := I32(writeTsOffset - skew);
      minLengthTs, maxLengthTs := I32(minLengthTs + skew), I32(maxLengthTs + skew);
    }

    /** Corrects a time skew, visible when the buffer was never filled up to the playout delay. */
    method CorrectSkew(ts: u32, early: u32, needed: u32) returns (at: u32, delta: u32)
      requires Valid()
      modifies this`writeTsOffset, this`minLengthTs, this`maxLengthTs
      ensures Valid() && Adjustment(State(), at, delta) == Skewed(Parameters(), old(State()), ts, early, needed)
    {
      at, delta := early, needed;
      if maxLengthTs > 0 && maxLengthTs < playoutDelayTs {
        var skew := AlignToFrame(playoutDelayTs - maxLengthTs);
        ghost var k := State();
        ShiftBy(skew);
        assert State() == Shifted(k, skew);
        at := U32(ts - writeTsOffset + playoutDelayTs);
        delta := if skew < delta then delta - skew else 0;
      }
    }

    /** Makes the playout delay longer, if the buffer is adaptive and has room for it. */
    method ExtendDelay(at: u32, delta: u32) returns (ok: bool, moved: u32)
      requires Valid()
      modifies this`playoutDelayTs, this`minLengthTs, this`maxLengthTs
      ensures Valid()
      ensures Extended(Parameters(), Adjustment(old(State()), at, delta)) == Located(State(), if ok then Some(moved) else None)
    {
      ok, moved := true, at;
      if delta != 0 {
        if !config.adaptive || U32(playoutDelayTs + delta) > maxPlayoutDelayTs {
          ok := false;
          return;
        }
        playoutDelayTs := U32(playoutDelayTs + delta);
        moved := U32(at + delta);
        if config.skewDetection {
          minLengthTs, maxLengthTs := I32(minLengthTs + delta), I32(maxLengthTs + delta);
        }
      }
    }

    /** The adjustment of a late packet: what brings it to the reader, corrected by the statistics. */
    method Adjust(ts: u32, early: u32) returns (at: u32, delta: u32)
      requires Valid()
      modifies this`writeTsOffset, this`minLengthTs, this`maxLengthTs
      ensures Valid() && Adjustment(State(), at, delta) == Adjusted(Parameters(), old(State()), ts, early)
    {
      ghost var p, k := Parameters(), State();
      var late := U32(readTs - early);
      if config.skewDetection {
        var wide := WidenDelta(late);
        assert Adjusted(p, k, ts, early) == Skewed(p, k, ts, early, wide);
        at, delta := CorrectSkew(ts, early, wide);
      } else {
        at, delta := early, late;
      }
    }

    /** A packet that would land behind the reader: statistics, skew correction and a longer playout delay may still
        admit it. */
    method AdmitLate(ts: u32, early: u32) returns (ok: bool, at: u32)
      requires Valid()
      modifies this`writeTsOffset, this`playoutDelayTs, this`minLengthTs, this`maxLengthTs
      ensures Valid()
      ensures Extended(Parameters(), Adjusted(Parameters(), old(State()), ts, early)) ==
              Located(State(), if ok then Some(at) else None)
    {
      var delta;
      at, delta := Adjust(ts, early);
      ok, at := ExtendDelay(at, delta);
    }

    /** Finds the position of a packet: as computed if on time, else in front of the reader or nowhere. */
    method FindPosition(ts: u32, marker: bool) returns (ok: bool, at: u32)
      requires Valid()
      modifies this`writeSync, this`writeTsOffset, this`playoutDelayTs, this`minLengthTs, this`maxLengthTs, this`measurements
      ensures Valid()
      ensures Locate(Parameters(), old(State()), ts, marker) == Located(State(), if ok then Some(at) else None)
    {
      if marker && writeTs <= readTs {
        writeSync := true;
      }
      at := PrepareWrite(ts);
      ok := true;
      if at < readTs {
        if at < writeTs {
          ok := false;
        } else {
          ok, at := AdmitLate(ts, at);
        }
      }
    }

    /** The dissecting loop of the write path. */
    method PlaceFrames(ts: u32, data: seq<byte>, available: nat, ghost placed: seq<seq<byte>>) returns (end: u32)
      requires frameTs > 0 && frames.Length > 0
      requires placed == Chunks(data, frameSize)[..Min(available, |Chunks(data, frameSize)|)]
      modifies frames
      ensures frames[..] == PutAudio(old(frames[..]), frameTs, ts, placed)
      ensures end == EndOf(ts, frameTs, |placed|)
    {
      end := ts;
      var rest, left := data, available;
      ghost var todo := placed;
      ghost var goal := PutAudio(frames[..], frameTs, ts, placed);
      ghost var stop := EndOf(ts, frameTs, |placed|);
      while left != 0 && |rest| != 0
        invariant todo == Chunks(rest, frameSize)[..Min(left, |Chunks(rest, frameSize)|)]
        invariant goal == PutAudio(frames[..], frameTs, end, todo)
        invariant stop == EndOf(end, frameTs, |todo|)
        decreases left
      {
        var i := SlotOf(end, frameTs, frames.Length);
        if frameSize == 0 || |rest| < frameSize {
          break;
        }
        ghost var before := frames[..];
        frames[i] := frames[i].(audio := true, data := rest[..frameSize]);
        assert frames[..] == before[i := before[i].(audio := true, data := todo[0])];
        rest, left := rest[frameSize..], left - 1;
        end := U32(end + frameTs);
        todo := todo[1..];
      }
    }

    /** Frames available to write from `at` on, as an unsigned 64-bit difference. */
    method FramesAvailable(at: u32) returns (available: nat)
      requires Valid()
      ensures available == Available(frames.Length, Distance(Parameters(), State(), at))
    {
      StepsIsDivision(U32(at - readTs), frameTs);
      available := (frames.Length - U32(at - readTs) / frameTs) % 0x1_0000_0000_0000_0000;
    }

    /** Places up to `available` frames of a payload from `at` on. */
    method StoreFrames(data: seq<byte>, at: u32, available: nat, ghost placed: seq<seq<byte>>)
      requires Valid()
      requires placed == Chunks(data, frameSize)[..Min(available, |Chunks(data, frameSize)|)]
      modifies this`writeTs, this`log, frames
      ensures Valid() && frames[..] == PutAudio(old(frames[..]), frameTs, at, placed)
      ensures log == old(log) + AudioLog(Steps(at, frameTs), placed)
      ensures State() == old(State()).(write := Later(old(writeTs), EndOf(at, frameTs, |placed|)))
    {
      var end := PlaceFrames(at, data, available, placed);
      if eventUpdate.SlotEvent? {
        PutAudioKeepsEvents(old(frames[..]), frameTs, at, placed, eventUpdate.index);
        assert frames[eventUpdate.index] == frames[..][eventUpdate.index];
      }
      log := log + AudioLog(Steps(at, frameTs), placed);
      if end > writeTs {
        writeTs := end;
      }
    }

    method Write(data: seq<byte>, ts: u32, marker: bool) returns (result: Result)
      requires Valid()
      modifies this, frames
      ensures Valid() && result == AudioResult(Parameters(), old(State()), ts, marker)
      ensures Whole() == WriteAudio(Parameters(), old(Whole()), data, ts, marker)
    {
      var ok, at := FindPosition(ts, marker);
      if !ok {
        return TooLate;
      }
      var available := FramesAvailable(at);
      if available <= 0 {
        return TooEarly;
      }
      StoreFrames(data, at, available, Placed(Parameters(), State(), at, data));
      result := Ok;
    }

    /** Decides whether a packet opens an event, starts a new segment of it, updates it, or brings nothing new.  An
        update is placed where the last received one ended. */
    method ClassifyEvent(ev: NamedEvent, pos: u32, marker: bool) returns (opens: bool, ignored: bool, at: u32)
      requires Valid()
      modifies this`eventBase, this`eventBaseTs, this`eventUpdate
      ensures Valid()
      ensures var c := Classify(Parameters(), old(State()), ev, pos, marker);
              State() == c.clock && opens == c.opens && ignored == c.ignored && (!ignored ==> at == c.at)
    {
      opens, ignored, at := marker, false, pos;
      if !marker {
        if eventBase.id != ev.id || eventUpdate.NoUpdate? {
          opens := true;
        } else if eventBaseTs != pos {
          if pos > U32(eventBaseTs + Update().value.duration + 4 * frameTs) {
            opens := true;
          } else {
            eventBase, eventUpdate, eventBaseTs := ev, BaseEvent, pos;
          }
        }
      }
      if opens {
        eventBase, eventUpdate, eventBaseTs := ev, BaseEvent, pos;
      } else {
        var last := Update().value;
        if ev.duration < last.duration {
          ignored := true;
        } else if ev.duration == last.duration && (last.edge || last.edge == ev.edge) {
          ignored := true;
        } else {
          at := U32(pos + last.duration);
        }
      }
    }

    method OutsideWindow(at: u32) returns (outside: bool)
      requires Valid()
      ensures outside <==> Distance(Parameters(), State(), at) >= frames.Length
    {
      StepsIsDivision(U32(at - readTs), frameTs);
      outside := U32(at - readTs) / frameTs >= frames.Length;
    }

    /** Moves a late event to the reader by a longer playout delay, if that is allowed. */
    method AdmitEvent(pos: u32, opens: bool) returns (result: Result, at: u32)
      requires Valid()
      modifies this`playoutDelayTs, this`eventBaseTs
      ensures Valid()
      ensures PlaceEvent(Parameters(), old(State()), pos, opens) == Located(State(), if result == Ok then Some(at) else None)
      ensures result != Ok ==> result == if pos < readTs then TooLate else TooEarly
    {
      result, at := Ok, pos;
      if pos < readTs {
        if !config.adaptive || U32(playoutDelayTs + (readTs - pos)) > maxPlayoutDelayTs {
          result := TooLate;
          return;
        }
        playoutDelayTs := U32(playoutDelayTs + (readTs - pos));
        at := readTs;
        if opens {
          eventBaseTs := at;
        }
      } else {
        var outside := OutsideWindow(pos);
        if outside {
          result := TooEarly;
        }
      }
    }

    /** Puts an event into the slot of `at`; the update pointer then designates it. */
    method StoreEvent(ev: NamedEvent, at: u32, mark: Option<Marker>)
      requires Valid()
      modifies this`eventUpdate, this`writeTs, this`log, frames
      ensures Valid()
      ensures State() == old(State()).(update := Some(ev), write := Later(old(writeTs), U32(at + frameTs)))
      ensures log == old(log) + [EventAt(Steps(at, frameTs), ev, mark)]
      ensures var i := SlotOf(at, frameTs, frames.Length);
              frames[..] == old(frames[..])[i := EventSlot(old(frames[i]), ev, mark)]
    {
      var i := SlotOf(at, frameTs, frames.Length);
      frames[i] := frames[i].(ev := ev, event := true, marker := if mark.Some? then mark.value else frames[i].marker);
      eventUpdate := SlotEvent(i);
      log := log + [EventAt(Steps(at, frameTs), ev, mark)];
      var end := U32(at + frameTs);
      if end > writeTs {
        writeTs := end;
      }
    }

    method EventWrite(ev: NamedEvent, ts: u32, marker: bool) returns (result: Result)
      requires Valid()
      modifies this, frames
      ensures Valid() && result == EventResult(Parameters(), old(State()), ev, ts, marker)
      ensures Whole() == WriteEvent(Parameters(), old(Whole()), ev, ts, marker)
    {
      var pos := PrepareWrite(ts);
      var opens, ignored;
      opens, ignored, pos := ClassifyEvent(ev, pos, marker);
      if ignored {
        return Ok;
      }
      var at;
      result, at := AdmitEvent(pos, opens);
      if result == Ok {
        StoreEvent(ev, at, if opens then Some(StartOfEvent) else if ev.edge then Some(EndOfEvent) else None);
      }
    }
  }

  /** One step of a run on the buffer object; a read adds to the frames.  Within reach of the ring, the buffer stays
      faithful to what was written. */
  method Perform(jb: JitterBuffer, a: Action, frames: seq<Content>) returns (frames': seq<Content>)
    requires jb.Valid() && frames == jb.played
    modifies jb, jb.frames
    ensures jb.Valid() && jb.Whole() == Step(jb.Parameters(), old(jb.Whole()), a) && frames' == jb.played
    ensures Faithful(jb.Parameters(), old(jb.Whole())) && InReach(jb.Parameters(), old(jb.Whole()), a) ==>
              Faithful(jb.Parameters(), jb.Whole())
  {
    if Faithful(jb.Parameters(), jb.Whole()) && InReach(jb.Parameters(), jb.Whole(), a) {
      StepKeeps(jb.Parameters(), jb.Whole(), a);
    }
    frames' := frames;
    match a
    case Audio(data, ts, marker) => var _ := jb.Write(data, ts, marker);
    case Event(ev, ts, marker) => var _ := jb.EventWrite(ev, ts, marker);
    case Fetch =>
      var frame := jb.Read();
      frames' := frames + [frame];
    case Restart => jb.Restart();
  }

  /** Drives a new buffer through a run.  The frames read are those of the run in `JitterModel`; when the delays are
      moderate, the run stays near and time does not wrap, the k-th one is what was last written for index k; and in runs
      that are regular they are those of the ideal buffer. */
  method Play(c: Config, frameTs: u32, frameSize: nat, actions: seq<Action>) returns (frames: seq<Content>)
    requires frameTs > 0 && SetupOf(c, frameTs, frameSize).capacity > 0
    ensures var p := SetupOf(c, frameTs, frameSize);
            && frames == Run(p, Start(p), actions).frames
            && (Moderate(p) && NearRun(p, Start(p), actions) && After(0, frameTs, Fetches(actions)) <= TIME_BOUND ==>
                  && |frames| == Fetches(actions)
                  && forall k :: 0 <= k < |frames| ==> frames[k] == LastWritten(Run(p, Start(p), actions).log, k))
            && (RegularRun(p, IdealStart(p), actions) ==> frames == IdealRun(p, IdealStart(p), actions).frames)
  {
    ghost var p := SetupOf(c, frameTs, frameSize);
    var jb := new JitterBuffer(c, frameTs, frameSize);
    frames := [];
    for i := 0 to |actions|
      invariant jb.Valid() && fresh(jb) && fresh(jb.frames) && jb.Parameters() == p
      invariant frames == jb.played && Run(p, jb.Whole(), actions[i..]) == Run(p, Start(p), actions)
    {
      assert actions[i..][1..] == actions[i + 1..];
      frames := Perform(jb, actions[i], frames);
    }
    if Moderate(p) && NearRun(p, Start(p), actions) && After(0, frameTs, Fetches(actions)) <= TIME_BOUND {
      PlayedFaithfully(p, actions);
    }
    if RegularRun(p, IdealStart(p), actions) {
      PlaysIdeally(p, actions);
    }
  }
}
