/** A growing queue in a cyclic array (libs/apr-toolkit/src/apt_cyclic_queue.c). */
module CyclicQueues {

  /** Position i places after `start` in an array of n. */
  function Place(start: nat, i: nat, n: nat): nat
    requires start < n && i <= n
  {
    if start + i < n then start + i else start + i - n
  }

  lemma NextPlace(p: nat, n: nat)
    requires p < n
    ensures (p + 1) % n == Place(p, 1, n)
  {
  }

  /** The n elements of a from `start` on, around the end. */
  function Around<T>(a: seq<T>, start: nat, n: nat): (r: seq<T>)
    requires start < |a| && n <= |a|
    ensures |r| == n && forall i :: 0 <= i < n ==> r[i] == a[Place(start, i, |a|)]
  {
    seq(n, i requires 0 <= i < n => a[Place(start, i, |a|)])
  }

  /** The size that a full queue grows to. */
  function Grown(size: nat): nat {
    size + size / 2
  }

  /** Growing makes room exactly when the queue has at least two places. */
  lemma GrowsExactly(size: nat)
    ensures Grown(size) > size <==> size >= 2
  {
  }

  class CyclicQueue<T(0)> {
    var data: array<T>
    var actualSize: nat
    var head: nat
    var tail: nat

    ghost predicate Valid()
      reads this
    {
      && data.Length >= 1 && head < data.Length && tail < data.Length && actualSize <= data.Length
      && head == Place(tail, actualSize, data.Length)
    }

    /** What is queued, oldest first. */
    ghost function Contents(): seq<T>
      requires Valid()
      reads this, data
    {
      Around(data[..], tail, actualSize)
    }

    constructor (size: nat)
      requires size >= 1
      ensures Valid() && fresh(data) && data.Length == size && Contents() == []
    {
      data := new T[size];
      actualSize, head, tail := 0, 0, 0;
    }

    /** Writes an object into a free place. */
    method Put(x: T)
      requires Valid() && actualSize < data.Length
      modifies this`head, this`actualSize, data
      ensures Valid() && Contents() == old(Contents()) + [x]
    {
      ghost var before := Contents();
      NextPlace(head, data.Length);
      data[head] := x;
      head := (head + 1) % data.Length;
      actualSize := actualSize + 1;
      assert forall i :: 0 <= i < actualSize - 1 ==> Contents()[i] == before[i];
    }

    /** Appends an object, growing the array if it is full.  A full array of one place does not grow: the object would
        be written behind its end, which is not done here. */
    method Push(x: T) returns (inside: bool)
      requires Valid()
      modifies this, data
      ensures inside <==> old(actualSize) < old(data.Length) || old(data.Length) >= 2
      ensures Valid() && Contents() == old(Contents()) + if inside then [x] else []
      ensures (data == old(data) || fresh(data)) && data.Length >= old(data.Length)
    {
      if actualSize >= data.Length {
        GrowsExactly(data.Length);
        if Grown(data.Length) == data.Length {
          return false;
        }
        Resize();
      }
      Put(x);
      inside := true;
    }

    method Pop() returns (found: bool, x: T)
      requires Valid()
      modifies this`tail, this`actualSize
      ensures Valid() && found == (old(Contents()) != [])
      ensures found ==> old(Contents()) == [x] + Contents()
      ensures !found ==> Contents() == []
    {
      x := data[tail];
      found := actualSize > 0;
      if found {
        ghost var before := Contents();
        NextPlace(tail, data.Length);
        tail := (tail + 1) % data.Length;
        actualSize := actualSize - 1;
        assert forall i :: 0 <= i < actualSize ==> Contents()[i] == before[i + 1];
      }
    }

    /** Moves the objects of a full queue to the start of a larger array. */
    method Resize()
      requires Valid() && actualSize == data.Length >= 2
      modifies this
      ensures Valid() && fresh(data) && old(data.Length) == actualSize < data.Length && Contents() == old(Contents())
    {
      GrowsExactly(data.Length);
      var larger := new T[Grown(data.Length)];
      var offset := data.Length - head;
      forall i | 0 <= i < offset {
        larger[i] := data[head + i];
      }
      forall i | 0 <= i < head {
        larger[offset + i] := data[i];
      }
      ghost var before := Contents();
      assert forall i :: 0 <= i < actualSize ==> larger[i] == before[i];
      tail, head := 0, data.Length;
      data := larger;
    }
  }
}
