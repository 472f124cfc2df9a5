/** A media processing context: the association matrix with its cached counts, and the topology of media objects
    built from it (libs/mpf/src/mpf_context.c). */
module MediaContexts {

  /** A termination; its stream may be received from (as a source) or sent to (as a sink). */
  class Termination {
    const receives: bool
    const sends: bool
    var slot: int

    constructor (receives: bool, sends: bool)
      ensures this.receives == receives && this.sends == sends && slot == -1
    {
      this.receives, this.sends, slot := receives, sends, -1;
    }
  }

  predicate Compatible(source: Termination, sink: Termination) {
    source.receives && sink.sends
  }

  /** A header item: the termination in a slot, and how many others it sends to and receives from. */
  datatype Item = Item(termination: Termination?, tx: nat, rx: nat)

  /** The on-entries of the association matrix, as pairs of row and column. */
  type Matrix = set<(nat, nat)>

  function Row(on: Matrix, i: nat): Matrix {
    set p | p in on && p.0 == i
  }

  function Column(on: Matrix, j: nat): Matrix {
    set p | p in on && p.1 == j
  }

  /** Entries in row or column i. */
  function Cross(on: Matrix, i: nat): Matrix {
    set p | p in on && (p.0 == i || p.1 == i)
  }

  lemma RowWith(on: Matrix, p: (nat, nat), i: nat)
    ensures Row(on + {p}, i) == if p.0 == i then Row(on, i) + {p} else Row(on, i)
    ensures Column(on + {p}, i) == if p.1 == i then Column(on, i) + {p} else Column(on, i)
    ensures Row(on - {p}, i) == Row(on, i) - {p} && Column(on - {p}, i) == Column(on, i) - {p}
  {
  }

  /** A row has at most as many entries as there are columns. */
  lemma {:induction false} RowBound(row: Matrix, i: nat, n: nat)
    requires forall p :: p in row ==> p.0 == i && p.1 < n
    ensures |row| <= n
    decreases n
  {
    if n == 0 {
      assert row == {};
    } else {
      RowBound(row - {(i, n - 1)}, i, n - 1);
      assert |row - {(i, n - 1)}| >= |row| - 1;
    }
  }

  lemma {:induction false} ColumnBound(column: Matrix, j: nat, n: nat)
    requires forall p :: p in column ==> p.1 == j && p.0 < n
    ensures |column| <= n
    decreases n
  {
    if n == 0 {
      assert column == {};
    } else {
      ColumnBound(column - {(n - 1, j)}, j, n - 1);
      assert |column - {(n - 1, j)}| >= |column| - 1;
    }
  }

  /** Occupied slots below n. */
  function Occupied(header: seq<Item>, n: nat): nat
    requires n <= |header|
  {
    if n == 0 then 0 else Occupied(header, n - 1) + if header[n - 1].termination != null then 1 else 0
  }

  lemma {:induction false} OccupiedMonotone(header: seq<Item>, m: nat, n: nat)
    requires m <= n <= |header|
    ensures Occupied(header, m) <= Occupied(header, n) <= Occupied(header, m) + n - m
    ensures Occupied(header, m) == Occupied(header, n) <==> forall i :: m <= i < n ==> header[i].termination == null
    decreases n
  {
    if m < n {
      OccupiedMonotone(header, m, n - 1);
    }
  }

  /** Same terminations in the same slots. */
  predicate SameSlots(a: seq<Item>, b: seq<Item>) {
    |a| == |b| && forall i :: 0 <= i < |a| ==> a[i].termination == b[i].termination
  }

  lemma {:induction false} OccupiedSame(a: seq<Item>, b: seq<Item>, n: nat)
    requires SameSlots(a, b) && n <= |a|
    ensures Occupied(a, n) == Occupied(b, n)
    decreases n
  {
    if n > 0 {
      OccupiedSame(a, b, n - 1);
    }
  }

  lemma {:induction false} OccupiedUpdate(a: seq<Item>, b: seq<Item>, i: nat, n: nat)
    requires |a| == |b| && i < |a| && n <= |a| && forall k :: 0 <= k < |a| && k != i ==> a[k].termination == b[k].termination
    requires a[i].termination == null && b[i].termination != null
    ensures Occupied(b, n) == Occupied(a, n) + if i < n then 1 else 0
    decreases n
  {
    if n > 0 {
      OccupiedUpdate(a, b, i, n - 1);
    }
  }

  /** The counts of slot i are the numbers of on-entries in its row and column. */
  predicate CountedAt(header: seq<Item>, on: Matrix, i: nat)
    requires i < |header|
  {
    header[i].tx == |Row(on, i)| && header[i].rx == |Column(on, i)|
  }

  /** An entry between occupied slots. */
  predicate Between(header: seq<Item>, p: (nat, nat)) {
    p.0 < |header| && p.1 < |header| && header[p.0].termination != null && header[p.1].termination != null
  }

  /** All counts are right, and entries are on only between occupied slots. */
  predicate Counted(header: seq<Item>, on: Matrix) {
    && (forall p :: p in on ==> Between(header, p))
    && (forall i :: 0 <= i < |header| ==> CountedAt(header, on, i))
  }

  /** Entries are on only from a stream that can be received from to one that can be sent to. */
  predicate Directed(header: seq<Item>, on: Matrix) {
    forall p :: p in on ==>
      Between(header, p) && header[p.0].termination.receives && header[p.1].termination.sends
  }

  /** Counts are held in a byte. */
  function Up(n: nat): nat {
    if n == 255 then 0 else n + 1
  }

  function Down(n: nat): nat {
    if n == 0 then 255 else n - 1
  }

  /** The header after entry (i, j) is switched on, ... */
  function Linked(header: seq<Item>, i: nat, j: nat): seq<Item>
    requires i < |header| && j < |header|
  {
    var h := header[i := header[i].(tx := Up(header[i].tx))];
    h[j := h[j].(rx := Up(h[j].rx))]
  }

  /** ... and after it is switched off. */
  function Unlinked(header: seq<Item>, i: nat, j: nat): seq<Item>
    requires i < |header| && j < |header|
  {
    var h := header[i := header[i].(tx := Down(header[i].tx))];
    h[j := h[j].(rx := Down(h[j].rx))]
  }

  /** A count that is not full yet goes up by one. */
  lemma RoomToCount(header: seq<Item>, on: Matrix, i: nat, j: nat)
    requires |header| <= 255 && Counted(header, on) && i < |header| && j < |header| && (i, j) !in on
    ensures Up(header[i].tx) == |Row(on, i)| + 1 && Up(header[j].rx) == |Column(on, j)| + 1
  {
    var p := (i, j);
    assert CountedAt(header, on, i) && CountedAt(header, on, j);
    RowBound(Row(on, i) + {p}, i, |header|);
    ColumnBound(Column(on, j) + {p}, j, |header|);
    assert |Row(on, i) + {p}| == |Row(on, i)| + 1 && |Column(on, j) + {p}| == |Column(on, j)| + 1;
  }

  lemma LinkedItem(header: seq<Item>, on: Matrix, i: nat, j: nat, k: nat)
    requires |header| <= 255 && Counted(header, on) && i < |header| && j < |header| && (i, j) !in on && k < |header|
    ensures CountedAt(Linked(header, i, j), on + {(i, j)}, k)
  {
    assert CountedAt(header, on, k);
    assert (i, j) !in Row(on, k) && (i, j) !in Column(on, k);
    RowWith(on, (i, j), k);
    if k == i || k == j {
      RoomToCount(header, on, i, j);
    }
  }

  lemma LinkedCounted(header: seq<Item>, on: Matrix, i: nat, j: nat)
    requires |header| <= 255 && Counted(header, on) && i < |header| && j < |header| && (i, j) !in on
    requires header[i].termination != null && header[j].termination != null
    ensures Counted(Linked(header, i, j), on + {(i, j)}) && SameSlots(header, Linked(header, i, j))
  {
    var h := Linked(header, i, j);
    forall k | 0 <= k < |h|
      ensures CountedAt(h, on + {(i, j)}, k)
    {
      LinkedItem(header, on, i, j, k);
    }
  }

  lemma UnlinkedItem(header: seq<Item>, on: Matrix, i: nat, j: nat, k: nat)
    requires Counted(header, on) && i < |header| && j < |header| && (i, j) in on && k < |header|
    ensures CountedAt(Unlinked(header, i, j), on - {(i, j)}, k)
  {
    assert CountedAt(header, on, k);
    RowWith(on, (i, j), k);
    assert (i, j) in Row(on, i) && (i, j) in Column(on, j);
    assert k != i ==> (i, j) !in Row(on, k);
    assert k != j ==> (i, j) !in Column(on, k);
  }

  lemma UnlinkedCounted(header: seq<Item>, on: Matrix, i: nat, j: nat)
    requires Counted(header, on) && i < |header| && j < |header| && (i, j) in on
    ensures Counted(Unlinked(header, i, j), on - {(i, j)}) && SameSlots(header, Unlinked(header, i, j))
  {
    var h := Unlinked(header, i, j);
    assert Between(header, (i, j));
    forall k | 0 <= k < |h|
      ensures CountedAt(h, on - {(i, j)}, k)
    {
      UnlinkedItem(header, on, i, j, k);
    }
  }

  /** An unassociated slot may change its termination. */
  lemma ReplacedCounted(header: seq<Item>, on: Matrix, i: nat, item: Item)
    requires Counted(header, on) && i < |header| && Cross(on, i) == {} && item.tx == item.rx == 0
    ensures Counted(header[i := item], on) && header[i].tx == header[i].rx == 0
  {
    var h := header[i := item];
    forall p | p in on
      ensures Between(h, p)
    {
      assert Between(header, p) && p !in Cross(on, i);
    }
    assert CountedAt(header, on, i) && Row(on, i) == {} && Column(on, i) == {};
    forall k | 0 <= k < |h|
      ensures CountedAt(h, on, k)
    {
      assert CountedAt(header, on, k);
    }
  }

  /** Entries are not on at an empty slot. */
  lemma EmptyCross(header: seq<Item>, on: Matrix, i: nat)
    requires Counted(header, on) && i < |header| && header[i].termination == null
    ensures Cross(on, i) == {}
  {
    forall p | p in on
      ensures p.0 != i && p.1 != i
    {
      assert Between(header, p);
    }
  }

  // ----- the topology -----

  /** A media object, with the slots it connects. */
  datatype Object =
    | Bridge(source: nat, sink: nat)
    | Multiplier(source: nat, sinks: seq<nat>)
    | Mixer(sources: seq<nat>, sink: nat)

  /** Columns below n that are on in row i. */
  function Sinks(on: Matrix, i: nat, n: nat): seq<nat> {
    if n == 0 then [] else Sinks(on, i, n - 1) + if (i, n - 1) in on then [n - 1] else []
  }

  /** Rows below n that are on in column j. */
  function Sources(on: Matrix, j: nat, n: nat): seq<nat> {
    if n == 0 then [] else Sources(on, j, n - 1) + if (n - 1, j) in on then [n - 1] else []
  }

  function RowBelow(on: Matrix, i: nat, n: nat): Matrix {
    set p | p in on && p.0 == i && p.1 < n
  }

  function ColumnBelow(on: Matrix, j: nat, n: nat): Matrix {
    set p | p in on && p.1 == j && p.0 < n
  }

  lemma BelowStep(on: Matrix, i: nat, n: nat)
    ensures RowBelow(on, i, n + 1) == if (i, n) in on then RowBelow(on, i, n) + {(i, n)} else RowBelow(on, i, n)
    ensures ColumnBelow(on, i, n + 1) == if (n, i) in on then ColumnBelow(on, i, n) + {(n, i)} else ColumnBelow(on, i, n)
    ensures (i, n) !in RowBelow(on, i, n) && (n, i) !in ColumnBelow(on, i, n)
  {
  }

  lemma {:induction false} SinksCount(on: Matrix, i: nat, n: nat)
    ensures |Sinks(on, i, n)| == |RowBelow(on, i, n)|
    decreases n
  {
    if n == 0 {
      assert RowBelow(on, i, n) == {};
    } else {
      SinksCount(on, i, n - 1);
      BelowStep(on, i, n - 1);
    }
  }

  lemma {:induction false} SourcesCount(on: Matrix, j: nat, n: nat)
    ensures |Sources(on, j, n)| == |ColumnBelow(on, j, n)|
    decreases n
  {
    if n == 0 {
      assert ColumnBelow(on, j, n) == {};
    } else {
      SourcesCount(on, j, n - 1);
      BelowStep(on, j, n - 1);
    }
  }

  lemma {:induction false} SinksAreRow(on: Matrix, i: nat, n: nat)
    ensures forall j :: j in Sinks(on, i, n) <==> j < n && (i, j) in on
    decreases n
  {
    if n > 0 {
      SinksAreRow(on, i, n - 1);
    }
  }

  lemma {:induction false} SourcesAreColumn(on: Matrix, j: nat, n: nat)
    ensures forall i :: i in Sources(on, j, n) <==> i < n && (i, j) in on
    decreases n
  {
    if n > 0 {
      SourcesAreColumn(on, j, n - 1);
    }
  }

  /** The arrays of sinks and sources are as long as the counts say. */
  lemma ArraysFilled(header: seq<Item>, on: Matrix, i: nat)
    requires Counted(header, on) && i < |header|
    ensures |Sinks(on, i, |header|)| == header[i].tx && |Sources(on, i, |header|)| == header[i].rx
  {
    SinksCount(on, i, |header|);
    SourcesCount(on, i, |header|);
    assert CountedAt(header, on, i);
    assert forall p :: p in on ==> Between(header, p);
    assert RowBelow(on, i, |header|) == Row(on, i);
    assert ColumnBelow(on, i, |header|) == Column(on, i);
  }

  /** The object for the output of slot i: a bridge to the only sink, unless a mixer feeds that sink, or a
      multiplier. */
  function OutOf(header: seq<Item>, on: Matrix, i: nat): seq<Object>
    requires i < |header|
  {
    var sinks := Sinks(on, i, |header|);
    if header[i].tx > 1 then [Multiplier(i, sinks)]
    else if header[i].tx == 0 || sinks == [] then []
    else if sinks[0] < |header| && header[sinks[0]].rx > 1 then []
    else [Bridge(i, sinks[0])]
  }

  /** The object for the input of slot j. */
  function InTo(header: seq<Item>, on: Matrix, j: nat): seq<Object>
    requires j < |header|
  {
    if header[j].rx > 1 then [Mixer(Sources(on, j, |header|), j)] else []
  }

  function ObjectsOf(header: seq<Item>, on: Matrix, i: nat): seq<Object>
    requires i < |header|
  {
    if header[i].termination == null then [] else OutOf(header, on, i) + InTo(header, on, i)
  }

  function ObjectLists(header: seq<Item>, on: Matrix): (lists: seq<seq<Object>>)
    ensures |lists| == |header| && forall i :: 0 <= i < |header| ==> lists[i] == ObjectsOf(header, on, i)
  {
    seq(|header|, i requires 0 <= i < |header| => ObjectsOf(header, on, i))
  }

  predicate ListedAt(header: seq<Item>, on: Matrix, lists: seq<seq<Object>>, i: nat)
    requires i < |header|
  {
    i < |lists| && lists[i] == ObjectsOf(header, on, i)
  }

  function Join(lists: seq<seq<Object>>, n: nat): seq<Object>
    requires n <= |lists|
  {
    if n == 0 then [] else Join(lists, n - 1) + lists[n - 1]
  }

  /** All media objects. */
  function Topology(header: seq<Item>, on: Matrix): seq<Object> {
    Join(ObjectLists(header, on), |header|)
  }

  predicate Carries(o: Object, i: nat, j: nat) {
    match o
    case Bridge(source, sink) => source == i && sink == j
    case Multiplier(source, sinks) => source == i && j in sinks
    case Mixer(sources, sink) => i in sources && sink == j
  }

  /** How many objects carry media from i to j. */
  function Carried(objects: seq<Object>, i: nat, j: nat): nat {
    if objects == [] then 0
    else Carried(objects[..|objects| - 1], i, j) + if Carries(objects[|objects| - 1], i, j) then 1 else 0
  }

  lemma {:induction false} CarriedConcat(a: seq<Object>, b: seq<Object>, i: nat, j: nat)
    ensures Carried(a + b, i, j) == Carried(a, i, j) + Carried(b, i, j)
    decreases |b|
  {
    if b == [] {
      assert a + b == a;
    } else {
      assert (a + b)[..|a + b| - 1] == a + b[..|b| - 1];
      CarriedConcat(a, b[..|b| - 1], i, j);
    }
  }

  lemma CarriedOne(o: Object, i: nat, j: nat)
    ensures Carried([o], i, j) == if Carries(o, i, j) then 1 else 0
  {
    assert [o][..0] == [];
  }

  /** What the objects for the output of slot k carry. */
  lemma OutCarries(header: seq<Item>, on: Matrix, k: nat, i: nat, j: nat)
    requires Counted(header, on) && k < |header|
    ensures Carried(OutOf(header, on, k), i, j) ==
            if k == i && (i, j) in on && (header[i].tx > 1 || header[j].rx <= 1) then 1 else 0
  {
    ArraysFilled(header, on, k);
    SinksAreRow(on, k, |header|);
    var out := OutOf(header, on, k);
    if out != [] {
      CarriedOne(out[0], i, j);
      assert out == [out[0]];
    }
    if header[k].tx == 1 {
      OneSink(Sinks(on, k, |header|), j);
    }
  }

  lemma OneSink(sinks: seq<nat>, j: nat)
    requires |sinks| == 1
    ensures j in sinks <==> sinks[0] == j
  {
  }

  lemma InCarries(header: seq<Item>, on: Matrix, k: nat, i: nat, j: nat)
    requires Counted(header, on) && k < |header|
    ensures Carried(InTo(header, on, k), i, j) == if k == j && (i, j) in on && header[j].rx > 1 then 1 else 0
  {
    SourcesAreColumn(on, k, |header|);
    if header[k].rx > 1 {
      CarriedOne(Mixer(Sources(on, k, |header|), k), i, j);
    }
  }

  lemma ObjectsCarry(header: seq<Item>, on: Matrix, k: nat, i: nat, j: nat)
    requires Counted(header, on) && k < |header|
    ensures Carried(ObjectsOf(header, on, k), i, j) ==
            (if k == i && (i, j) in on && (header[i].tx > 1 || header[j].rx <= 1) then 1 else 0)
            + (if k == j && (i, j) in on && header[j].rx > 1 then 1 else 0)
  {
    if header[k].termination != null {
      CarriedConcat(OutOf(header, on, k), InTo(header, on, k), i, j);
      OutCarries(header, on, k, i, j);
      InCarries(header, on, k, i, j);
    }
  }

  lemma {:induction false} JoinCarries(lists: seq<seq<Object>>, n: nat, i: nat, j: nat, out: bool, into: bool)
    requires n <= |lists|
    requires forall k :: 0 <= k < n ==>
               Carried(lists[k], i, j) == (if k == i && out then 1 else 0) + if k == j && into then 1 else 0
    ensures Carried(Join(lists, n), i, j) == (if i < n && out then 1 else 0) + if j < n && into then 1 else 0
    decreases n
  {
    if n > 0 {
      JoinCarries(lists, n - 1, i, j, out, into);
      CarriedConcat(Join(lists, n - 1), lists[n - 1], i, j);
    }
  }

  /** An association is carried by one object, or by two if the source sends to several sinks and the sink
      receives from several sources; what is not associated is not carried. */
  lemma TopologyCarries(header: seq<Item>, on: Matrix, i: nat, j: nat)
    requires Counted(header, on)
    ensures Carried(Topology(header, on), i, j) ==
            if (i, j) !in on then 0 else if header[i].tx > 1 && header[j].rx > 1 then 2 else 1
  {
    var lists := ObjectLists(header, on);
    var out := (i, j) in on && (header[i].tx > 1 || header[j].rx <= 1);
    var into := (i, j) in on && header[j].rx > 1;
    forall k | 0 <= k < |lists|
      ensures Carried(lists[k], i, j) == (if k == i && out then 1 else 0) + if k == j && into then 1 else 0
    {
      ObjectsCarry(header, on, k, i, j);
    }
    JoinCarries(lists, |lists|, i, j, out, into);
  }

  // ----- the context -----

  /** Entries of row or column i whose other index is below n. */
  function CrossBelow(on: Matrix, i: nat, n: nat): Matrix {
    set p | p in on && ((p.0 == i && p.1 < n) || (p.1 == i && p.0 < n))
  }

  lemma CrossStep(on: Matrix, i: nat, j: nat)
    ensures CrossBelow(on, i, j + 1) == CrossBelow(on, i, j) + (on * {(i, j), (j, i)})
  {
  }

  lemma BelowOccupied(header: seq<Item>, on: Matrix, n: nat, p: (nat, nat))
    requires Counted(header, on) && n <= |header| && forall k :: n <= k < |header| ==> header[k].termination == null
    requires p in on
    ensures p.0 < n && p.1 < n
  {
    assert Between(header, p);
  }

  /** Above the last occupied slot nothing is on. */
  lemma CrossComplete(header: seq<Item>, on: Matrix, i: nat, n: nat)
    requires Counted(header, on) && n <= |header| && forall k :: n <= k < |header| ==> header[k].termination == null
    ensures CrossBelow(on, i, n) == Cross(on, i)
  {
    forall p | p in on
      ensures p.0 < n && p.1 < n
    {
      BelowOccupied(header, on, n, p);
    }
  }

  lemma EmptyAbove(header: seq<Item>, on: Matrix, n: nat)
    requires Counted(header, on) && n <= |header| && forall k :: n <= k < |header| ==> header[k].termination == null
    requires forall p :: p in on ==> p.0 >= n && p.1 >= n
    ensures on == {}
  {
    forall p | p in on
      ensures p.0 < n
    {
      BelowOccupied(header, on, n, p);
    }
  }

  class MediaContext {
    const capacity: nat
    var count: nat
    var header: seq<Item>
    var on: Matrix
    var objects: seq<Object>
    var listed: bool

    ghost predicate Valid()
      reads this
    {
      && |header| == capacity <= 255 && Counted(header, on) && Directed(header, on)
      && count == Occupied(header, capacity) && (listed <==> count > 0)
    }

    /** The termination is in its slot. */
    predicate Holds(t: Termination)
      reads this, t
    {
      0 <= t.slot < |header| && header[t.slot].termination == t
    }

    constructor (capacity: nat)
      requires capacity <= 255
      ensures Valid() && this.capacity == capacity && count == 0 && on == {} && objects == []
    {
      this.capacity, count, on, objects, listed := capacity, 0, {}, [], false;
      header := seq(capacity, _ => Item(null, 0, 0));
      new;
      OccupiedMonotone(header, 0, capacity);
    }

    /** Puts a termination into the first free slot; fails if and only if there is none. */
    method Add(t: Termination) returns (ok: bool)
      requires Valid()
      modifies this`count, this`header, this`listed, t`slot
      ensures Valid() && (ok <==> old(count) < capacity)
      ensures ok ==> Holds(t) && old(header)[t.slot].termination == null && count == old(count) + 1
      ensures ok ==> forall k :: 0 <= k < capacity && k != t.slot ==> header[k] == old(header)[k]
      ensures ok ==> forall k :: 0 <= k < t.slot ==> header[k].termination != null
      ensures !ok ==> header == old(header) && count == old(count) && t.slot == old(t.slot)
    {
      for i := 0 to capacity
        invariant Valid() && header == old(header) && count == old(count) && t.slot == old(t.slot)
        invariant Occupied(header, i) == i
        invariant forall k :: 0 <= k < i ==> header[k].termination != null
      {
        if header[i].termination == null {
          OccupiedMonotone(header, i, capacity);
          OccupiedMonotone(header, i + 1, capacity);
          Place(t, i);
          return true;
        }
      }
      ok := false;
    }

    method Place(t: Termination, i: nat)
      requires Valid() && i < capacity && header[i].termination == null
      modifies this`count, this`header, this`listed, t`slot
      ensures Valid() && t.slot == i && header == old(header)[i := Item(t, 0, 0)] && count == old(count) + 1
    {
      if count == 0 {
        listed := true;
      }
      EmptyCross(header, on, i);
      ReplacedCounted(header, on, i, Item(t, 0, 0));
      header := header[i := Item(t, 0, 0)];
      OccupiedUpdate(old(header), header, i, capacity);
      t.slot := i;
      count := count + 1;
    }

    /** Switches an entry off. */
    method Unlink(i: nat, j: nat)
      requires i < |header| && j < |header| && Counted(header, on)
      modifies this`header, this`on
      ensures Counted(header, on) && SameSlots(old(header), header) && on == old(on) - {(i, j)}
    {
      if (i, j) in on {
        UnlinkedCounted(header, on, i, j);
        header := header[i := header[i].(tx := Down(header[i].tx))];
        header := header[j := header[j].(rx := Down(header[j].rx))];
        on := on - {(i, j)};
      }
    }

    /** Switches an entry on if the streams allow it. */
    method Link(i: nat, j: nat)
      requires i < |header| && j < |header| <= 255 && Counted(header, on)
      requires header[i].termination != null && header[j].termination != null
      modifies this`header, this`on
      ensures Counted(header, on) && SameSlots(old(header), header)
      ensures on == old(on) + if Compatible(old(header)[i].termination, old(header)[j].termination) then {(i, j)} else {}
    {
      if (i, j) !in on && Compatible(header[i].termination, header[j].termination) {
        LinkedCounted(header, on, i, j);
        header := header[i := header[i].(tx := Up(header[i].tx))];
        header := header[j := header[j].(rx := Up(header[j].rx))];
        on := on + {(i, j)};
      } else if Compatible(header[i].termination, header[j].termination) {
        assert on + {(i, j)} == on;
      }
    }

    /** Switches off the row and the column of a slot. */
    method ClearSlot(i: nat)
      requires Valid() && i < capacity
      modifies this`header, this`on
      ensures Valid() && SameSlots(old(header), header) && on == old(on) - Cross(old(on), i)
    {
      var j, k := 0, 0;
      while j < capacity && k < count
        invariant j <= capacity == |header| && Counted(header, on) && SameSlots(old(header), header)
        invariant k == Occupied(old(header), j)
        invariant on == old(on) - CrossBelow(old(on), i, j)
        decreases capacity - j
      {
        if header[j].termination != null {
          k := k + 1;
          Unlink(i, j);
          Unlink(j, i);
        } else {
          EmptyCross(old(header), old(on), j);
          assert (i, j) !in Cross(old(on), j) && (j, i) !in Cross(old(on), j);
        }
        CrossStep(old(on), i, j);
        assert on == old(on) - CrossBelow(old(on), i, j + 1);
        j := j + 1;
      }
      OccupiedSame(old(header), header, capacity);
      OccupiedMonotone(old(header), j, capacity);
      CrossComplete(old(header), old(on), i, j);
    }

    /** Takes a termination out of its slot together with all its associations. */
    method Subtract(t: Termination) returns (ok: bool)
      requires Valid()
      modifies this`count, this`header, this`on, this`listed, t`slot
      ensures Valid() && (ok <==> old(Holds(t)))
      ensures ok ==> t.slot == -1 && count == old(count) - 1 && on == old(on) - Cross(old(on), old(t.slot))
      ensures ok ==> |header| == |old(header)| && header[old(t.slot)] == Item(null, 0, 0)
      ensures ok ==> forall k :: 0 <= k < capacity && k != old(t.slot) ==> header[k].termination == old(header)[k].termination
      ensures !ok ==> header == old(header) && on == old(on) && count == old(count) && t.slot == old(t.slot)
    {
      var i := t.slot;
      if i < 0 || i >= capacity || header[i].termination != t {
        return false;
      }
      ClearSlot(i);
      assert Cross(on, i) == {};
      ReplacedCounted(header, on, i, Item(null, 0, 0));
      ghost var full := header;
      header := header[i := header[i].(termination := null)];
      OccupiedUpdate(header, full, i, capacity);
      t.slot := -1;
      count := count - 1;
      if count == 0 {
        listed := false;
      }
      ok := true;
    }

    /** Associates two terminations in both directions, as far as their streams allow it. */
    method AssociationAdd(t: Termination, u: Termination) returns (ok: bool)
      requires Valid()
      modifies this`header, this`on
      ensures Valid() && SameSlots(old(header), header) && (ok <==> Holds(t) && Holds(u))
      ensures on == old(on) + (if ok && t.receives && u.sends then {(t.slot, u.slot)} else {})
                            + (if ok && u.receives && t.sends then {(u.slot, t.slot)} else {})
    {
      var i, j := t.slot, u.slot;
      if i < 0 || i >= capacity || j < 0 || j >= capacity {
        return false;
      }
      if header[i].termination != t || header[j].termination != u {
        return false;
      }
      Link(i, j);
      Link(j, i);
      OccupiedSame(old(header), header, capacity);
      ok := true;
    }

    method AssociationRemove(t: Termination, u: Termination) returns (ok: bool)
      requires Valid()
      modifies this`header, this`on
      ensures Valid() && SameSlots(old(header), header) && (ok <==> Holds(t) && Holds(u))
      ensures on == if ok then old(on) - {(t.slot, u.slot), (u.slot, t.slot)} else old(on)
    {
      var i, j := t.slot, u.slot;
      if i < 0 || i >= capacity || j < 0 || j >= capacity {
        return false;
      }
      if header[i].termination != t || header[j].termination != u {
        return false;
      }
      Unlink(i, j);
      Unlink(j, i);
      OccupiedSame(old(header), header, capacity);
      ok := true;
    }

    /** Switches every entry off. */
    method AssociationsReset()
      requires Valid()
      modifies this`header, this`on, this`objects
      ensures Valid() && SameSlots(old(header), header) && on == {} && objects == []
      ensures forall i :: 0 <= i < capacity ==> header[i].tx == header[i].rx == 0
    {
      objects := [];
      var i, k := 0, 0;
      while i < capacity && k < count
        invariant i <= capacity && Valid() && SameSlots(old(header), header) && objects == []
        invariant k == Occupied(header, i)
        invariant forall p :: p in on ==> p.0 >= i && p.1 >= i
        decreases capacity - i
      {
        if header[i].termination != null {
          k := k + 1;
          if header[i].tx != 0 || header[i].rx != 0 {
            ResetFrom(i);
          } else {
            NoEntries(header, on, i);
          }
        }
        i := i + 1;
      }
      OccupiedMonotone(header, i, capacity);
      EmptyAbove(header, on, i);
      forall n | 0 <= n < capacity
        ensures header[n].tx == header[n].rx == 0
      {
        assert CountedAt(header, on, n) && Row(on, n) == {} && Column(on, n) == {};
      }
    }

    /** Switches off what is left in the row and the column of slot i. */
    method ResetFrom(i: nat)
      requires Valid() && i < capacity && forall p :: p in on ==> p.0 >= i && p.1 >= i
      modifies this`header, this`on
      ensures Valid() && SameSlots(old(header), header) && Occupied(header, i + 1) == Occupied(old(header), i + 1)
      ensures forall p :: p in on ==> p.0 > i && p.1 > i
    {
      for j := i to capacity
        invariant |header| == capacity && Counted(header, on) && SameSlots(old(header), header) && on <= old(on)
        invariant forall p :: p in on ==> p.0 >= i && p.1 >= i
        invariant forall p :: p in on && p.0 == i ==> p.1 >= j
        invariant forall p :: p in on && p.1 == i ==> p.0 >= j
      {
        if header[j].termination != null {
          Unlink(i, j);
          Unlink(j, i);
        }
      }
      OccupiedSame(old(header), header, capacity);
      OccupiedSame(old(header), header, i + 1);
    }

    /** Rebuilds the media objects. */
    method TopologyApply()
      requires Valid()
      modifies this`objects
      ensures objects == Topology(header, on)
    {
      objects := [];
      forall i | 0 <= i < |header|
        ensures ListedAt(header, on, ObjectLists(header, on), i)
      {
      }
      objects := Build(ObjectLists(header, on));
    }

    method Build(ghost lists: seq<seq<Object>>) returns (built: seq<Object>)
      requires Valid() && |lists| == capacity && forall i :: 0 <= i < |header| ==> ListedAt(header, on, lists, i)
      ensures built == Join(lists, capacity)
    {
      built := [];
      var i, k := 0, 0;
      while i < capacity && k < count
        invariant i <= capacity && built == Join(lists, i) && k == Occupied(header, i)
        decreases capacity - i
      {
        assert ListedAt(header, on, lists, i);
        if header[i].termination != null {
          k := k + 1;
          var created := CreateObjects(i);
          built := built + created;
        }
        i := i + 1;
      }
      OccupiedMonotone(header, i, capacity);
      forall n | i <= n < capacity
        ensures lists[n] == []
      {
        assert ListedAt(header, on, lists, n);
      }
      JoinEmptyAbove(lists, i, capacity);
    }

    method CreateObjects(i: nat) returns (created: seq<Object>)
      requires Valid() && i < capacity && header[i].termination != null
      ensures created == ObjectsOf(header, on, i)
    {
      created := [];
      ArraysFilled(header, on, i);
      if header[i].tx == 1 {
        created := BridgeCreate(i);
      } else if header[i].tx > 1 {
        var sinks := SinksOf(i);
        created := [Multiplier(i, sinks)];
      }
      if header[i].rx > 1 {
        var sources := SourcesOf(i);
        created := created + [Mixer(sources, i)];
      }
    }

    /** A bridge to the only sink, unless a mixer will feed that sink. */
    method BridgeCreate(i: nat) returns (created: seq<Object>)
      requires Valid() && i < capacity && header[i].termination != null && header[i].tx == 1
      ensures created == OutOf(header, on, i)
    {
      ArraysFilled(header, on, i);
      for j := 0 to capacity
        invariant Sinks(on, i, j) == []
      {
        if header[j].termination != null && (i, j) in on {
          SinksFirst(on, i, j, capacity);
          if header[j].rx > 1 {
            return [];
          }
          return [Bridge(i, j)];
        }
      }
      created := [];
    }

    /** Fills the array of sinks, which has the size tx. */
    method SinksOf(i: nat) returns (sinks: seq<nat>)
      requires Valid() && i < capacity
      ensures sinks == Sinks(on, i, capacity) && |sinks| == header[i].tx
    {
      ArraysFilled(header, on, i);
      sinks := [];
      var j := 0;
      while j < capacity && |sinks| < header[i].tx
        invariant j <= capacity && sinks == Sinks(on, i, j)
        decreases capacity - j
      {
        if header[j].termination != null && (i, j) in on {
          sinks := sinks + [j];
        }
        j := j + 1;
      }
      SinksPrefix(on, i, j, capacity);
    }

    method SourcesOf(j: nat) returns (sources: seq<nat>)
      requires Valid() && j < capacity
      ensures sources == Sources(on, j, capacity) && |sources| == header[j].rx
    {
      ArraysFilled(header, on, j);
      sources := [];
      var i := 0;
      while i < capacity && |sources| < header[j].rx
        invariant i <= capacity && sources == Sources(on, j, i)
        decreases capacity - i
      {
        if header[i].termination != null && (i, j) in on {
          sources := sources + [i];
        }
        i := i + 1;
      }
      SourcesPrefix(on, j, i, capacity);
    }
  }

  lemma NoEntries(header: seq<Item>, on: Matrix, i: nat)
    requires Counted(header, on) && i < |header| && header[i].tx == 0 && header[i].rx == 0
    ensures forall p :: p in on ==> p.0 != i && p.1 != i
  {
    assert CountedAt(header, on, i);
    assert Row(on, i) == {} && Column(on, i) == {};
    forall p | p in on
      ensures p.0 != i && p.1 != i
    {
      assert p !in Row(on, i) && p !in Column(on, i);
    }
  }

  lemma {:induction false} SinksPrefix(on: Matrix, i: nat, m: nat, n: nat)
    requires m <= n
    ensures Sinks(on, i, m) <= Sinks(on, i, n)
    decreases n
  {
    if m < n {
      SinksPrefix(on, i, m, n - 1);
    }
  }

  lemma {:induction false} SourcesPrefix(on: Matrix, j: nat, m: nat, n: nat)
    requires m <= n
    ensures Sources(on, j, m) <= Sources(on, j, n)
    decreases n
  {
    if m < n {
      SourcesPrefix(on, j, m, n - 1);
    }
  }

  lemma SinksFirst(on: Matrix, i: nat, j: nat, n: nat)
    requires j < n && Sinks(on, i, j) == [] && (i, j) in on
    ensures Sinks(on, i, n) != [] && Sinks(on, i, n)[0] == j
  {
    assert Sinks(on, i, j + 1) == [j];
    SinksPrefix(on, i, j + 1, n);
  }

  lemma {:induction false} JoinEmptyAbove(lists: seq<seq<Object>>, m: nat, n: nat)
    requires m <= n <= |lists| && forall i :: m <= i < n ==> lists[i] == []
    ensures Join(lists, n) == Join(lists, m)
    decreases n
  {
    if m < n {
      JoinEmptyAbove(lists, m, n - 1);
    }
  }
}
