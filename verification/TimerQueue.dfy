/** One-shot timers in a queue sorted by deadline (libs/apr-toolkit/src/apt_timer_queue.c). */
module TimerQueues {
  import opened Common

  const REBASE: nat := 0xFFFF

  /** Timeouts up to here keep scheduled times within 32 bits. */
  const MAX_TIMEOUT: nat := 0xFFFF_0000

  /** A timer in the queue.  The stamp tells the order in which timers were set. */
  datatype Entry = Entry(id: nat, scheduled: nat, stamp: nat)

  predicate Before(a: Entry, b: Entry) {
    a.scheduled < b.scheduled || (a.scheduled == b.scheduled && a.stamp < b.stamp)
  }

  /** By deadline, and timers with the same deadline in the order in which they were set. */
  predicate Sorted(timers: seq<Entry>) {
    forall i, j {:trigger Before(timers[i], timers[j])} :: 0 <= i < j < |timers| ==> Before(timers[i], timers[j])
  }

  /** When a timer is due; None if it is not in the queue. */
  function Deadline(timers: seq<Entry>, id: nat): Option<nat> {
    if timers == [] then None
    else if timers[0].id == id then Some(timers[0].scheduled)
    else Deadline(timers[1..], id)
  }

  predicate Has(timers: seq<Entry>, id: nat) {
    Deadline(timers, id).Some?
  }

  /** No timer is in the queue twice. */
  predicate Distinct(timers: seq<Entry>) {
    timers == [] || (!Has(timers[1..], timers[0].id) && Distinct(timers[1..]))
  }

  lemma {:induction false} DeadlineConcat(a: seq<Entry>, b: seq<Entry>, id: nat)
    ensures Deadline(a + b, id) == if Has(a, id) then Deadline(a, id) else Deadline(b, id)
    decreases |a|
  {
    if a == [] {
      assert a + b == b;
    } else {
      assert (a + b)[0] == a[0] && (a + b)[1..] == a[1..] + b;
      DeadlineConcat(a[1..], b, id);
    }
  }

  lemma {:induction false} DistinctConcat(a: seq<Entry>, b: seq<Entry>)
    ensures Distinct(a + b) <==> Distinct(a) && Distinct(b) && forall id :: Has(a, id) ==> !Has(b, id)
    decreases |a|
  {
    if a == [] {
      assert a + b == b;
    } else {
      assert (a + b)[0] == a[0] && (a + b)[1..] == a[1..] + b;
      DistinctConcat(a[1..], b);
      DeadlineConcat(a[1..], b, a[0].id);
      assert forall id :: Has(a, id) <==> id == a[0].id || Has(a[1..], id);
      assert Has(a, a[0].id);
    }
  }

  lemma OneEntry(e: Entry, id: nat)
    ensures Deadline([e], id) == if id == e.id then Some(e.scheduled) else None
    ensures Distinct([e])
  {
    assert [e][1..] == [];
  }

  /** Entry e put between a and b. */
  lemma DeadlineInsert(a: seq<Entry>, e: Entry, b: seq<Entry>, id: nat)
    requires !Has(a + b, e.id)
    ensures Deadline(a + [e] + b, id) == if id == e.id then Some(e.scheduled) else Deadline(a + b, id)
  {
    DeadlineConcat(a, b, id);
    DeadlineConcat(a, b, e.id);
    DeadlineConcat(a + [e], b, id);
    DeadlineConcat(a, [e], id);
    OneEntry(e, id);
  }

  lemma DistinctInsert(a: seq<Entry>, e: Entry, b: seq<Entry>)
    ensures Distinct(a + [e] + b) <==> Distinct(a + b) && !Has(a + b, e.id)
  {
    DistinctConcat(a, b);
    DistinctConcat(a + [e], b);
    DistinctConcat(a, [e]);
    DeadlineConcat(a, b, e.id);
    OneEntry(e, e.id);
    forall id
      ensures Has([e], id) <==> id == e.id
      ensures Has(a + [e], id) <==> Has(a, id) || id == e.id
    {
      OneEntry(e, id);
      DeadlineConcat(a, [e], id);
    }
  }

  lemma SortedInsert(a: seq<Entry>, e: Entry, b: seq<Entry>)
    requires Sorted(a + b)
    requires forall i :: 0 <= i < |a| ==> Before(a[i], e)
    requires forall i :: 0 <= i < |b| ==> Before(e, b[i])
    ensures Sorted(a + [e] + b)
  {
    var t := a + [e] + b;
    forall i, j | 0 <= i < j < |t|
      ensures Before(t[i], t[j])
    {
      assert i != |a| ==> t[i] == (a + b)[if i < |a| then i else i - 1];
      assert j != |a| ==> t[j] == (a + b)[if j < |a| then j else j - 1];
    }
  }

  lemma SortedRemove(a: seq<Entry>, e: Entry, b: seq<Entry>)
    requires Sorted(a + [e] + b)
    ensures Sorted(a + b)
  {
    var t := a + [e] + b;
    forall i, j | 0 <= i < j < |a + b|
      ensures Before((a + b)[i], (a + b)[j])
    {
      assert (a + b)[i] == t[if i < |a| then i else i + 1];
      assert (a + b)[j] == t[if j < |a| then j else j + 1];
    }
  }

  /** All deadlines moved to an earlier time; a deadline that would become negative wraps around. */
  function Rebased(timers: seq<Entry>, offset: nat): (r: seq<Entry>)
    ensures |r| == |timers|
    ensures forall i :: 0 <= i < |r| ==> r[i] == timers[i].(scheduled := U32(timers[i].scheduled - offset))
  {
    seq(|timers|, i requires 0 <= i < |timers| => timers[i].(scheduled := U32(timers[i].scheduled - offset)))
  }

  function Ids(timers: seq<Entry>): (r: seq<nat>)
    ensures |r| == |timers| && forall i :: 0 <= i < |r| ==> r[i] == timers[i].id
  {
    seq(|timers|, i requires 0 <= i < |timers| => timers[i].id)
  }

  /** Time left to a timer. */
  function Left(timers: seq<Entry>, elapsed: nat, id: nat): Option<int> {
    var d := Deadline(timers, id);
    if d.Some? then Some(d.value - elapsed) else None
  }

  /** Time left to a timer after d units have passed, if its callback sets it again by `again` (zero: not at all). */
  function Later(left: Option<int>, d: nat, again: nat): Option<int> {
    if left.None? then None
    else if left.value > d then Some(left.value - d)
    else if again > 0 then Some(again)
    else None
  }

  /** Deadlines are in the future, and every number is in range. */
  predicate Future(timers: seq<Entry>, elapsed: nat) {
    forall i :: 0 <= i < |timers| ==> elapsed < timers[i].scheduled < 0x1_0000_0000
  }

  predicate Stamped(timers: seq<Entry>, next: nat) {
    forall i :: 0 <= i < |timers| ==> timers[i].stamp < next
  }

  /** Moving time forward to `now` does not rebase past a deadline. */
  predicate InTime(timers: seq<Entry>, now: nat) {
    now < 0xFFFF || forall i :: 0 <= i < |timers| ==> timers[i].scheduled >= now
  }

  class TimerQueue {
    var timers: seq<Entry>
    var elapsed: nat
    var reset: bool
    var next: nat

    ghost predicate Valid()
      reads this
    {
      && Sorted(timers) && Distinct(timers) && Future(timers, elapsed) && Stamped(timers, next) && elapsed < REBASE
    }

    constructor ()
      ensures Valid() && timers == [] && elapsed == 0 && !reset
    {
      timers, elapsed, reset, next := [], 0, false, 0;
    }

    /** Puts an entry behind all those that are due no later, searching from the end. */
    method Insert(e: Entry) returns (ghost p: nat)
      requires Sorted(timers) && Distinct(timers) && Stamped(timers, e.stamp) && !Has(timers, e.id)
      modifies this`timers
      ensures p <= |old(timers)| && timers == old(timers)[..p] + [e] + old(timers)[p..]
      ensures forall i :: 0 <= i < p ==> old(timers)[i].scheduled <= e.scheduled
      ensures forall i :: p <= i < |old(timers)| ==> old(timers)[i].scheduled > e.scheduled
      ensures Sorted(timers) && Distinct(timers)
      ensures forall id :: Deadline(timers, id) == if id == e.id then Some(e.scheduled) else Deadline(old(timers), id)
    {
      ghost var before := timers;
      var k := |timers|;
      while k > 0 && timers[k - 1].scheduled > e.scheduled
        invariant 0 <= k <= |timers|
        invariant forall i :: k <= i < |timers| ==> timers[i].scheduled > e.scheduled
      {
        k := k - 1;
      }
      p := k;
      ghost var a, b := before[..k], before[k..];
      SplitFacts(before, k, e, a, b);
      InsertFacts(a, e, b, before);
      timers := timers[..k] + [e] + timers[k..];
    }

    method Find(id: nat) returns (found: bool, p: nat)
      ensures found == Has(timers, id)
      ensures found ==> p < |timers| && timers[p].id == id
    {
      p := 0;
      while p < |timers|
        invariant p <= |timers| && Has(timers, id) == Has(timers[p..], id)
      {
        assert timers[p..][0] == timers[p] && timers[p..][1..] == timers[p + 1..];
        if timers[p].id == id {
          return true, p;
        }
        p := p + 1;
      }
      found := false;
    }

    /** Takes the entry at p out; the time starts anew when none is left. */
    method Remove(p: nat)
      requires Valid() && p < |timers|
      modifies this`timers, this`elapsed, this`reset
      ensures Valid() && timers == old(timers)[..p] + old(timers)[p + 1..]
      ensures timers == [] ==> elapsed == 0 && reset
      ensures timers != [] ==> elapsed == old(elapsed) && reset == old(reset)
      ensures forall i :: Left(timers, elapsed, i) == if i == old(timers)[p].id then None else old(Left(timers, elapsed, i))
    {
      RemoveFacts(timers, p);
      timers := timers[..p] + timers[p + 1..];
      if timers == [] {
        elapsed, reset := 0, true;
      }
    }

    /** Sets a timer, or sets it anew.  Its deadline wraps around, into the past, exactly if it does not fit 32 bits. */
    method Set(id: nat, timeout: u32) returns (ok: bool)
      requires Valid()
      modifies this
      ensures ok == (timeout > 0) && Sorted(timers) && Distinct(timers)
      ensures !ok ==> Valid() && timers == old(timers) && elapsed == old(elapsed) && reset == old(reset)
      ensures ok ==> (Valid() <==> elapsed + timeout < 0x1_0000_0000)
      ensures ok ==> forall i :: Left(timers, elapsed, i) ==
                                 if i == id then Some(U32(elapsed + timeout) - elapsed) else old(Left(timers, elapsed, i))
      ensures ok && elapsed + timeout < 0x1_0000_0000 ==> Left(timers, elapsed, id) == Some(timeout)
      ensures ok && !old(Has(timers, id)) ==> elapsed == old(elapsed) && reset == old(reset)
    {
      if timeout <= 0 {
        return false;
      }
      Unschedule(id);
      ghost var before := timers;
      var p, e := Schedule(id, timeout);
      FutureInsert(before, e, p, elapsed);
      ok := true;
    }

    method Unschedule(id: nat)
      requires Valid()
      modifies this`timers, this`elapsed, this`reset
      ensures Valid() && !Has(timers, id)
      ensures forall i :: i != id ==> Left(timers, elapsed, i) == old(Left(timers, elapsed, i))
      ensures !old(Has(timers, id)) ==> elapsed == old(elapsed) && reset == old(reset)
    {
      var found, p := Find(id);
      if found {
        Remove(p);
        assert Left(timers, elapsed, id).None?;
      }
    }

    /** Queues a timer that is not in the queue. */
    method Schedule(id: nat, timeout: u32) returns (ghost p: nat, ghost e: Entry)
      requires Sorted(timers) && Distinct(timers) && Stamped(timers, next) && !Has(timers, id)
      requires elapsed < REBASE && 0 < timeout
      modifies this`timers, this`next
      ensures Sorted(timers) && Distinct(timers) && Stamped(timers, next)
      ensures e.id == id && e.scheduled == U32(elapsed + timeout)
      ensures p <= |old(timers)| && timers == old(timers)[..p] + [e] + old(timers)[p..]
      ensures forall i :: p <= i < |old(timers)| ==> old(timers)[i].scheduled > e.scheduled
      ensures forall i :: Deadline(timers, i) == if i == id then Some(e.scheduled) else Deadline(old(timers), i)
    {
      e := Entry(id, U32(elapsed + timeout), next);
      p := Insert(Entry(id, U32(elapsed + timeout), next));
      next := next + 1;
    }

    method Kill(id: nat) returns (ok: bool)
      requires Valid()
      modifies this
      ensures Valid() && ok == old(Has(timers, id))
      ensures forall i :: Left(timers, elapsed, i) == if i == id then None else old(Left(timers, elapsed, i))
      ensures ok && timers == [] ==> elapsed == 0 && reset
    {
      var p;
      ok, p := Find(id);
      if ok {
        Remove(p);
      }
    }

    /** Time until the first deadline; clears the reset flag. */
    method TimeoutGet() returns (ok: bool, timeout: nat)
      requires Valid()
      modifies this`reset
      ensures !reset && ok == (timers != [])
      ensures ok ==> timeout > 0 && exists i :: 0 <= i < |timers| && timers[i].scheduled - elapsed == timeout
      ensures ok ==> forall i :: 0 <= i < |timers| ==> timers[i].scheduled - elapsed >= timeout
    {
      reset, timeout := false, 0;
      ok := timers != [];
      if ok {
        timeout := timers[0].scheduled - elapsed;
        forall i | 0 < i < |timers|
          ensures timers[i].scheduled >= timers[0].scheduled
        {
          assert Before(timers[0], timers[i]);
        }
      }
    }

    /** Lets d units of time pass and fires the timers that are due; rearm gives the timeout with which the
        callback of a timer sets it again, zero for none.  While the reset flag is set, time stands still. */
    method Advance(d: u32, rearm: nat -> nat) returns (fired: seq<nat>)
      requires Valid() && forall id :: rearm(id) <= MAX_TIMEOUT
      modifies this
      ensures old(timers == [] || reset) ==>
                Valid() && fired == [] && timers == old(timers) && elapsed == old(elapsed) && next == old(next)
      // a step that does not fit 32 bits turns the time back
      ensures old(timers != [] && !reset) && old(elapsed) + d >= 0x1_0000_0000 ==>
                && Valid() && fired == [] && elapsed == old(elapsed) + d - 0x1_0000_0000
                && forall id :: Deadline(timers, id) == Deadline(old(timers), id)
      ensures old(timers != [] && !reset) && old(elapsed) + d < 0x1_0000_0000 && InTime(old(timers), old(elapsed) + d) ==>
                && Valid() && |fired| <= |old(timers)| && fired == Ids(old(timers)[..|fired|])
                && (forall i :: 0 <= i < |old(timers)| ==> (i < |fired| <==> old(timers)[i].scheduled - old(elapsed) <= d))
                && forall id :: Left(timers, elapsed, id) == Later(old(Left(timers, elapsed, id)), d, rearm(id))
      ensures old(timers != [] && !reset) && old(elapsed) + d < 0x1_0000_0000 && !InTime(old(timers), old(elapsed) + d) ==>
                fired == [] && old(timers)[0].scheduled - old(elapsed) < d
      ensures reset == old(reset)
    {
      if timers == [] || reset {
        return [];
      }
      if elapsed + d >= 0x1_0000_0000 {
        TurnBack(d);
        fired := Process(rearm);
        return;
      }
      ghost var was, now := timers, elapsed + d;
      ghost var offset := Elapse(d);
      ghost var start := timers;
      fired := Process(rearm);
      if InTime(was, now) {
        SortedAbove(start, |fired|, elapsed);
        forall id
          ensures Left(timers, elapsed, id) == Later(Left(was, old(elapsed), id), d, rearm(id))
        {
          LeftAfter(was, start, offset, |fired|, elapsed, old(elapsed), d, rearm(id), id);
        }
      }
    }

    /** Moves the time by a step that does not fit 32 bits. */
    method TurnBack(d: u32)
      requires Valid() && timers != [] && elapsed + d >= 0x1_0000_0000
      modifies this`elapsed
      ensures elapsed == old(elapsed) + d - 0x1_0000_0000 < old(elapsed) && Valid() && Ready(timers, next)
    {
      WrapOver(elapsed + d);
      elapsed := U32(elapsed + d);
    }

    /** Moves the time forward. */
    method Elapse(d: u32) returns (ghost offset: nat)
      requires Valid() && timers != [] && elapsed + d < 0x1_0000_0000
      modifies this`timers, this`elapsed
      ensures elapsed < REBASE && old(elapsed) + d == elapsed + offset && |timers| == |old(timers)|
      ensures InTime(old(timers), old(elapsed) + d) ==>
                && Ready(timers, next) && Ids(timers) == Ids(old(timers))
                && (forall id :: Shifted(old(timers), timers, offset, id))
                && forall i :: 0 <= i < |timers| ==> timers[i].scheduled - elapsed == old(timers)[i].scheduled - (old(elapsed) + d)
      ensures !InTime(old(timers), old(elapsed) + d) ==>
                timers[0].scheduled > elapsed && old(timers)[0].scheduled < old(elapsed) + d
    {
      elapsed := U32(elapsed + d);
      offset := 0;
      if elapsed >= REBASE {
        offset := elapsed;
        Reschedule();
      }
    }

    /** Starts the time anew. */
    method Reschedule()
      requires Sorted(timers) && Distinct(timers) && Stamped(timers, next) && timers != [] && elapsed < 0x1_0000_0000
      requires forall i :: 0 <= i < |timers| ==> timers[i].scheduled < 0x1_0000_0000
      modifies this`timers, this`elapsed
      ensures elapsed == 0 && timers == Rebased(old(timers), old(elapsed))
      ensures (forall i :: 0 <= i < |timers| ==> old(timers)[i].scheduled >= old(elapsed)) ==>
                Ready(timers, next) && forall id :: Shifted(old(timers), timers, old(elapsed), id)
      ensures (exists i :: 0 <= i < |timers| && old(timers)[i].scheduled < old(elapsed)) ==>
                timers[0].scheduled > 0 && old(timers)[0].scheduled < old(elapsed)
    {
      ghost var before := timers;
      MoveDeadlines();
      if i :| 0 <= i < |before| && before[i].scheduled < elapsed {
        RebaseLate(before, elapsed, i);
      } else {
        RebaseKeeps(before, elapsed, next);
      }
      elapsed := 0;
    }

    method MoveDeadlines()
      modifies this`timers
      ensures timers == Rebased(old(timers), elapsed)
    {
      ghost var before := timers;
      var k := |timers|;
      while k > 0
        invariant 0 <= k <= |timers| == |before|
        invariant forall i :: 0 <= i < |timers| ==>
                    timers[i] == if i < k then before[i] else before[i].(scheduled := U32(before[i].scheduled - elapsed))
      {
        k := k - 1;
        timers := timers[k := timers[k].(scheduled := U32(timers[k].scheduled - elapsed))];
      }
    }

    /** Fires the first timer; its callback may set it again. */
    method FireFirst(rearm: nat -> nat, ghost start: seq<Entry>, ghost n: nat, ghost k: nat)
      requires elapsed < REBASE && forall id :: rearm(id) <= MAX_TIMEOUT
      requires timers != [] && timers[0].scheduled <= elapsed && Ready(timers, next) && Firing(start, timers, n, k, elapsed)
      requires forall id :: Deadline(timers, id) == Refired(start, n, elapsed, rearm(id), id)
      modifies this`timers, this`next
      ensures n < k && Ready(timers, next) && Firing(start, timers, n + 1, k, elapsed)
      ensures forall id :: Deadline(timers, id) == Refired(start, n + 1, elapsed, rearm(id), id)
    {
      ghost var before := timers;
      FirstFacts(timers, next);
      FiringRest(start, timers, n, k, elapsed);
      var e := timers[0];
      timers := timers[1..];
      if rearm(e.id) > 0 {
        ghost var rest := timers;
        var p, again := Schedule(e.id, rearm(e.id));
        FiringInsert(start, rest, n + 1, k, elapsed, p, again, timers);
      }
      forall id
        ensures Deadline(timers, id) == Refired(start, n + 1, elapsed, rearm(id), id)
      {
        HasPrefix(start, n, id);
      }
    }

    /** Fires timers from the front while they are due. */
    method Process(rearm: nat -> nat) returns (fired: seq<nat>)
      requires timers != [] && elapsed < REBASE && forall id :: rearm(id) <= MAX_TIMEOUT
      requires timers[0].scheduled > elapsed || Ready(timers, next)
      modifies this`timers, this`next
      ensures |fired| <= |old(timers)| && fired == Ids(old(timers)[..|fired|])
      ensures forall i :: 0 <= i < |fired| ==> old(timers)[i].scheduled <= elapsed
      ensures |fired| < |old(timers)| ==> old(timers)[|fired|].scheduled > elapsed
      ensures Ready(old(timers), old(next)) ==>
                && Ready(timers, next) && Future(timers, elapsed)
                && forall id :: Deadline(timers, id) == Refired(old(timers), |fired|, elapsed, rearm(id), id)
    {
      ghost var start, k := timers, DueCount(timers, elapsed);
      DueAll(start, elapsed);
      if Ready(start, next) {
        SortedAbove(start, k, elapsed);
        assert start[..k] == start[0..k];
      }
      fired := [];
      while timers != [] && timers[0].scheduled <= elapsed
        invariant |fired| <= k && fired == Ids(start[..|fired|])
        invariant !Ready(start, old(next)) ==> timers == start && fired == []
        invariant Ready(start, old(next)) ==> Ready(timers, next) && Firing(start, timers, |fired|, k, elapsed)
        invariant Ready(start, old(next)) ==> forall id :: Deadline(timers, id) == Refired(start, |fired|, elapsed, rearm(id), id)
        decreases k - |fired|
      {
        ghost var n := |fired|;
        FiringRest(start, timers, n, k, elapsed);
        assert start[..n + 1] == start[..n] + [start[n]];
        fired := fired + [timers[0].id];
        FireFirst(rearm, start, n, k);
      }
    }
  }

  lemma SplitFacts(timers: seq<Entry>, k: nat, e: Entry, a: seq<Entry>, b: seq<Entry>)
    requires k <= |timers| && Sorted(timers) && a == timers[..k] && b == timers[k..]
    requires forall i :: k <= i < |timers| ==> timers[i].scheduled > e.scheduled
    requires k > 0 ==> timers[k - 1].scheduled <= e.scheduled
    ensures timers == a + b
    ensures forall i :: 0 <= i < |b| ==> b[i].scheduled > e.scheduled
    ensures a != [] ==> a[|a| - 1].scheduled <= e.scheduled
    ensures forall i :: 0 <= i < k ==> timers[i].scheduled <= e.scheduled
  {
    forall i | 0 <= i < k - 1
      ensures timers[i].scheduled <= e.scheduled
    {
      assert Before(timers[i], timers[k - 1]);
    }
  }

  lemma InsertFacts(a: seq<Entry>, e: Entry, b: seq<Entry>, timers: seq<Entry>)
    requires timers == a + b && Sorted(timers) && Distinct(timers) && Stamped(timers, e.stamp) && !Has(timers, e.id)
    requires forall i :: 0 <= i < |b| ==> b[i].scheduled > e.scheduled
    requires a != [] ==> a[|a| - 1].scheduled <= e.scheduled
    ensures Sorted(a + [e] + b) && Distinct(a + [e] + b)
    ensures forall i :: 0 <= i < |a| ==> a[i].scheduled <= e.scheduled
    ensures forall id :: Deadline(a + [e] + b, id) == if id == e.id then Some(e.scheduled) else Deadline(timers, id)
  {
    forall i | 0 <= i < |a|
      ensures Before(a[i], e)
    {
      assert timers[i] == a[i] && timers[|a| - 1] == a[|a| - 1];
      assert i < |a| - 1 ==> Before(timers[i], timers[|a| - 1]);
    }
    SortedInsert(a, e, b);
    DistinctInsert(a, e, b);
    forall id
      ensures Deadline(a + [e] + b, id) == if id == e.id then Some(e.scheduled) else Deadline(timers, id)
    {
      DeadlineInsert(a, e, b, id);
    }
  }

  /** With an entry inserted, deadlines are in the future exactly if that of the entry is. */
  lemma FutureInsert(timers: seq<Entry>, e: Entry, p: nat, elapsed: nat)
    requires p <= |timers| && Future(timers, elapsed)
    ensures Future(timers[..p] + [e] + timers[p..], elapsed) <==> elapsed < e.scheduled < 0x1_0000_0000
  {
    var t := timers[..p] + [e] + timers[p..];
    assert t[p] == e;
    forall i | 0 <= i < |t| && i != p
      ensures elapsed < t[i].scheduled < 0x1_0000_0000
    {
      assert t[i] == timers[if i < p then i else i - 1];
    }
  }

  lemma RemoveFacts(timers: seq<Entry>, p: nat)
    requires p < |timers| && Sorted(timers) && Distinct(timers)
    ensures var t := timers[..p] + timers[p + 1..];
            && Sorted(t) && Distinct(t)
            && forall id :: Deadline(t, id) == if id == timers[p].id then None else Deadline(timers, id)
  {
    var a, e, b := timers[..p], timers[p], timers[p + 1..];
    assert timers == a + [e] + b;
    SortedRemove(a, e, b);
    DistinctInsert(a, e, b);
    forall id
      ensures Deadline(a + b, id) == if id == e.id then None else Deadline(timers, id)
    {
      DeadlineInsert(a, e, b, id);
    }
  }

  // ----- what firing does -----

  predicate Ready(timers: seq<Entry>, next: nat) {
    && Sorted(timers) && Distinct(timers) && Stamped(timers, next)
    && forall i :: 0 <= i < |timers| ==> timers[i].scheduled < 0x1_0000_0000
  }

  /** Number of timers at the front that are due. */
  function DueCount(timers: seq<Entry>, now: nat): (k: nat)
    ensures k <= |timers| && (k < |timers| ==> timers[k].scheduled > now)
  {
    if timers == [] || timers[0].scheduled > now then 0 else 1 + DueCount(timers[1..], now)
  }

  lemma {:induction false} DueAll(timers: seq<Entry>, now: nat)
    ensures forall i :: 0 <= i < DueCount(timers, now) ==> timers[i].scheduled <= now
  {
    if timers != [] && timers[0].scheduled <= now {
      DueAll(timers[1..], now);
      forall i | 0 < i < DueCount(timers, now)
        ensures timers[i].scheduled <= now
      {
        assert timers[i] == timers[1..][i - 1];
      }
    }
  }

  /** n of the k due timers have fired: the others are still in front, and nothing else is due. */
  predicate Firing(start: seq<Entry>, timers: seq<Entry>, n: nat, k: nat, now: nat) {
    && n <= k <= |start| && k - n <= |timers| && timers[..k - n] == start[n..k]
    && forall i :: 0 <= i < |timers| ==> (timers[i].scheduled <= now <==> i < k - n)
  }

  /** The deadline of a timer when the first n timers have fired. */
  function Refired(start: seq<Entry>, n: nat, now: nat, again: nat, id: nat): Option<nat>
    requires n <= |start|
  {
    if !Has(start[..n], id) then Deadline(start, id) else if again > 0 then Some(now + again) else None
  }

  lemma FirstFacts(timers: seq<Entry>, next: nat)
    requires timers != [] && Ready(timers, next)
    ensures Ready(timers[1..], next) && !Has(timers[1..], timers[0].id)
    ensures forall id :: Deadline(timers, id) == if id == timers[0].id then Some(timers[0].scheduled) else Deadline(timers[1..], id)
  {
    var rest := timers[1..];
    forall i, j | 0 <= i < j < |rest|
      ensures Before(rest[i], rest[j])
    {
      assert Before(timers[i + 1], timers[j + 1]);
    }
  }

  lemma FiringRest(start: seq<Entry>, timers: seq<Entry>, n: nat, k: nat, now: nat)
    requires timers != [] && timers[0].scheduled <= now && Firing(start, timers, n, k, now)
    ensures n < k && timers[0] == start[n] && Firing(start, timers[1..], n + 1, k, now)
  {
    assert timers[..k - n][0] == timers[0];
    assert timers[1..][..k - n - 1] == timers[..k - n][1..];
    assert start[n + 1..k] == start[n..k][1..];
  }

  lemma FiringInsert(start: seq<Entry>, rest: seq<Entry>, n: nat, k: nat, now: nat, p: nat, e: Entry, timers: seq<Entry>)
    requires Firing(start, rest, n, k, now) && p <= |rest| && timers == rest[..p] + [e] + rest[p..] && e.scheduled > now
    requires forall i :: p <= i < |rest| ==> rest[i].scheduled > now
    ensures Firing(start, timers, n, k, now)
  {
    assert p < |rest| ==> rest[p].scheduled > now;
    assert timers[..k - n] == rest[..k - n];
    forall i | 0 <= i < |timers|
      ensures timers[i].scheduled <= now <==> i < k - n
    {
      assert i != p ==> timers[i] == rest[if i < p then i else i - 1];
    }
  }

  lemma HasPrefix(start: seq<Entry>, n: nat, id: nat)
    requires n < |start|
    ensures Has(start[..n + 1], id) <==> Has(start[..n], id) || start[n].id == id
  {
    assert start[..n + 1] == start[..n] + [start[n]];
    DeadlineConcat(start[..n], [start[n]], id);
    OneEntry(start[n], id);
  }

  /** A deadline moved by the offset. */
  predicate Shifted(was: seq<Entry>, now: seq<Entry>, offset: nat, id: nat) {
    && Has(was, id) == Has(now, id)
    && (Has(was, id) ==> Deadline(now, id).value == Deadline(was, id).value - offset)
  }

  lemma {:induction false} RebasedDeadline(timers: seq<Entry>, offset: nat, id: nat)
    requires forall i :: 0 <= i < |timers| ==> offset <= timers[i].scheduled < 0x1_0000_0000
    ensures Shifted(timers, Rebased(timers, offset), offset, id)
    decreases |timers|
  {
    if timers != [] {
      assert Rebased(timers, offset)[1..] == Rebased(timers[1..], offset);
      RebasedDeadline(timers[1..], offset, id);
    }
  }

  lemma {:induction false} RebasedDistinct(timers: seq<Entry>, offset: nat)
    requires Distinct(timers) && forall i :: 0 <= i < |timers| ==> offset <= timers[i].scheduled < 0x1_0000_0000
    ensures Distinct(Rebased(timers, offset))
    decreases |timers|
  {
    if timers != [] {
      assert Rebased(timers, offset)[1..] == Rebased(timers[1..], offset);
      RebasedDistinct(timers[1..], offset);
      RebasedDeadline(timers[1..], offset, timers[0].id);
    }
  }

  lemma WrapOver(x: int)
    requires 0x1_0000_0000 <= x < 0x2_0000_0000
    ensures U32(x) == x - 0x1_0000_0000
  {
  }

  lemma WrapNegative(x: int)
    requires -0x1_0000_0000 < x < 0
    ensures U32(x) == x + 0x1_0000_0000
  {
  }

  /** If no deadline is missed, rebasing keeps the queue as it is; ... */
  lemma RebaseKeeps(timers: seq<Entry>, offset: nat, next: nat)
    requires Sorted(timers) && Distinct(timers) && Stamped(timers, next)
    requires forall i :: 0 <= i < |timers| ==> offset <= timers[i].scheduled < 0x1_0000_0000
    ensures Ready(Rebased(timers, offset), next) && forall id :: Shifted(timers, Rebased(timers, offset), offset, id)
  {
    var r := Rebased(timers, offset);
    RebasedDistinct(timers, offset);
    forall id
      ensures Shifted(timers, r, offset, id)
    {
      RebasedDeadline(timers, offset, id);
    }
    forall i, j | 0 <= i < j < |r|
      ensures Before(r[i], r[j])
    {
      assert Before(timers[i], timers[j]);
    }
  }

  /** ... otherwise the first timer is put off. */
  lemma RebaseLate(timers: seq<Entry>, offset: nat, i: nat)
    requires Sorted(timers) && i < |timers| && timers[i].scheduled < offset < 0x1_0000_0000
    ensures timers[0].scheduled < offset && Rebased(timers, offset)[0].scheduled > 0
  {
    assert i > 0 ==> Before(timers[0], timers[i]);
    WrapNegative(timers[0].scheduled - offset);
  }

  /** A timer that is due in 10 units is put off by some 49 days if 65535 units pass at once. */
  lemma DeadlineCanBeMissed()
    ensures var timers := [Entry(1, 10, 0)];
            && Sorted(timers) && Distinct(timers) && Future(timers, 0) && !InTime(timers, 0xFFFF)
            && Rebased(timers, 0xFFFF)[0].scheduled == 0xFFFF_000B
  {
    var timers := [Entry(1, 10, 0)];
    OneEntry(timers[0], 1);
    assert timers[0].scheduled < 0xFFFF;
    WrapNegative(10 - 0xFFFF);
  }

  lemma SortedAbove(timers: seq<Entry>, n: nat, now: nat)
    requires Sorted(timers) && n <= |timers| && (n < |timers| ==> timers[n].scheduled > now)
    ensures forall i :: n <= i < |timers| ==> timers[i].scheduled > now
  {
    forall i | n < i < |timers|
      ensures timers[i].scheduled > now
    {
      assert Before(timers[n], timers[i]);
    }
  }

  lemma {:induction false} DeadlineIsSome(timers: seq<Entry>, id: nat)
    requires Has(timers, id)
    ensures exists i :: 0 <= i < |timers| && timers[i].scheduled == Deadline(timers, id).value
    decreases |timers|
  {
    if timers[0].id != id {
      DeadlineIsSome(timers[1..], id);
      var i :| 0 <= i < |timers[1..]| && timers[1..][i].scheduled == Deadline(timers[1..], id).value;
      assert timers[i + 1].scheduled == Deadline(timers, id).value;
    }
  }

  /** What the time left to a timer becomes. */
  lemma LeftAfter(was: seq<Entry>, start: seq<Entry>, offset: nat, n: nat, elapsed: nat, before: nat, d: nat, again: nat, id: nat)
    requires Shifted(was, start, offset, id) && before + d == elapsed + offset && n <= |start|
    requires forall i :: 0 <= i < n ==> start[i].scheduled <= elapsed
    requires forall i :: n <= i < |start| ==> start[i].scheduled > elapsed
    ensures var r := Refired(start, n, elapsed, again, id);
            (if r.Some? then Some(r.value - elapsed) else None) == Later(Left(was, before, id), d, again)
  {
    var a, b := start[..n], start[n..];
    assert start == a + b;
    DeadlineConcat(a, b, id);
    if Has(a, id) {
      DeadlineIsSome(a, id);
    } else if Has(b, id) {
      DeadlineIsSome(b, id);
    }
  }
}
